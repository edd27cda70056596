/** Projecting one scope's bead backend (Dolt, Doltlite or Postgres) into an
    environment map that is changed in place: cmd/gc/bd_env.go and
    cmd/gc/dolt_auth.go. What config files, credential sources and the process
    environment say are inputs. */
module BackendEnv {
  import opened Prelude
  import A = DoltAuth

  // ---- keys ------------------------------------------------------------------------------

  datatype DoltKey = GcHost | GcPort | GcUser | GcPassword | CredentialsFile | Host | Port | User | Password

  datatype PgKey = GcPgPassword | PgPassword | PgHost | PgPort | PgUser | PgDatabase

  /** The keys by the backend they connect to, those shared by all, and the rest. */
  datatype Key =
    | Dolt(d: DoltKey)
    | Postgres(p: PgKey)
    | GcBackend | BeadsBackend
    | Tls | CredCmd | CredentialCommand
    | Other(name: string)

  const DOLT: seq<Key> := [Dolt(GcHost), Dolt(GcPort), Dolt(GcUser), Dolt(GcPassword), Dolt(CredentialsFile),
                           Dolt(Host), Dolt(Port), Dolt(User), Dolt(Password)]
  const POSTGRES: seq<Key> := [Postgres(GcPgPassword), Postgres(PgPassword), Postgres(PgHost), Postgres(PgPort),
                               Postgres(PgUser), Postgres(PgDatabase)]
  const BACKEND: seq<Key> := [GcBackend, BeadsBackend]

  type Vars = map<Key, string>

  predicate IsBackend(k: Key) {
    k.GcBackend? || k.BeadsBackend?
  }

  lemma DoltKeys(k: Key)
    ensures k in DOLT <==> k.Dolt?
  {
    if k.Dolt? {
      match k.d
      case GcHost => assert k == DOLT[0];
      case GcPort => assert k == DOLT[1];
      case GcUser => assert k == DOLT[2];
      case GcPassword => assert k == DOLT[3];
      case CredentialsFile => assert k == DOLT[4];
      case Host => assert k == DOLT[5];
      case Port => assert k == DOLT[6];
      case User => assert k == DOLT[7];
      case Password => assert k == DOLT[8];
    }
  }

  lemma PgKeys(k: Key)
    ensures k in POSTGRES <==> k.Postgres?
  {
    if k.Postgres? {
      match k.p
      case GcPgPassword => assert k == POSTGRES[0];
      case PgPassword => assert k == POSTGRES[1];
      case PgHost => assert k == POSTGRES[2];
      case PgPort => assert k == POSTGRES[3];
      case PgUser => assert k == POSTGRES[4];
      case PgDatabase => assert k == POSTGRES[5];
    }
  }

  predicate Managed(k: Key) {
    k.Dolt? || k.Postgres? || IsBackend(k)
  }

  function Lookup(vars: Vars, k: Key): Option<string> {
    if k in vars then Some(vars[k]) else None
  }

  /** Go's map read: "" for an absent key. */
  function Get(vars: Vars, k: Key): string {
    if Lookup(vars, k).Some? then Lookup(vars, k).value else ""
  }

  /** A value, or no entry when it is empty. */
  function Bound(value: string): Option<string> {
    if value == "" then None else Some(value)
  }

  // ---- inputs ----------------------------------------------------------------------------

  datatype Target = Target(host: string, port: string, user: string, external: bool, localHost: bool)

  datatype Backend = Unset | DoltServer | Doltlite | PostgresServer | Unsupported(name: string)

  datatype Pg = Pg(host: string, port: string, user: string, database: string)

  datatype Meta = Meta(backend: Backend, pg: Pg)

  /** A scope, or the city, as its files resolve; None is a read that failed. */
  datatype Config = Config(authoritative: Option<bool>, meta: Option<Meta>, pgPassword: Option<string>)

  /** `cityAuth`: the city owns the credentials; `sources` are those of the owner. */
  datatype Scope = Scope(own: Config, city: Config, inheritsCity: bool, cityUsesDoltlite: bool,
                         target: Option<Target>, sources: A.Sources, cityAuth: bool)

  /** The values read from the process environment. */
  datatype Ambient = Ambient(credCmd: string, credentialCommand: string, tls: string)

  // ---- what the projection leaves --------------------------------------------------------

  /** What a scope connects to. */
  datatype Connection = ToDolt(f: Fields, gateway: bool) | ToDoltlite | ToPostgres(pg: Pg, password: string) | Nowhere

  /** The values of a Dolt connection; gcPort keeps the target's own spacing. */
  datatype Fields = Fields(host: string, gcPort: string, port: string, user: string, password: string, credentialsFile: string)

  function HostOf(t: Target): string {
    if t.external || !t.localHost then Trim(t.host) else ""
  }

  function PortOf(t: Target): string {
    if Blank(t.port) then "" else t.port
  }

  /** The credentials, resolved against what the map holds: its credentials
      file and, for the city's own credentials, its password. */
  function AuthOf(vars: Vars, t: Target, src: A.Sources, cityAuth: bool): A.Resolved {
    A.Resolve(src, t.user, HostOf(t), PortOf(t), Get(vars, Dolt(CredentialsFile)), if cityAuth then Get(vars, Dolt(Password)) else "")
  }

  function FieldsOf(t: Target, auth: A.Resolved): Fields {
    Fields(HostOf(t), PortOf(t), Trim(t.port), auth.user, auth.password, auth.credentialsFile)
  }

  /** The entry of a connection key. The bd port key is always there, to shadow an inherited one. */
  function ConnectionAt(c: Connection, k: Key): Option<string> {
    match k
    case Dolt(d) => if c.ToDolt? then DoltAt(c.f, d) else if d.Port? then Some("") else None
    case Postgres(p) => if c.ToPostgres? then PgAt(c.pg, c.password, p) else None
    case _ => if IsBackend(k) && c.ToDoltlite? then Some("doltlite") else None
  }

  function DoltAt(f: Fields, d: DoltKey): Option<string> {
    match d
    case GcHost => Bound(f.host)
    case Host => Bound(f.host)
    case GcPort => Bound(f.gcPort)
    case Port => Some(f.port)
    case GcUser => Bound(f.user)
    case User => Bound(f.user)
    case GcPassword => Bound(f.password)
    case Password => Bound(f.password)
    case CredentialsFile => Bound(f.credentialsFile)
  }

  function PgAt(pg: Pg, password: string, p: PgKey): Option<string> {
    match p
    case GcPgPassword => Some(password)
    case PgPassword => Bound(password)
    case PgHost => Some(pg.host)
    case PgPort => Some(pg.port)
    case PgUser => Some(pg.user)
    case PgDatabase => Some(pg.database)
  }

  /** The hosted-gateway credential command: the map's own values, then ambient;
      an entry with no source stays as it is. */
  function CredentialAt(vars: Vars, amb: Ambient): Option<string> {
    if Trim(Get(vars, CredCmd)) != "" then Some(Trim(Get(vars, CredCmd)))
    else if Trim(Get(vars, CredentialCommand)) != "" then Some(Trim(Get(vars, CredentialCommand)))
    else if Trim(amb.credCmd) != "" then Some(Trim(amb.credCmd))
    else if Trim(amb.credentialCommand) != "" then Some(Trim(amb.credentialCommand))
    else Lookup(vars, CredentialCommand)
  }

  predicate HostedGateway(t: Target) {
    t.external && !t.localHost
  }

  function TlsFor(vars: Vars, amb: Ambient, carry: bool): string {
    if !carry then "" else if Trim(Get(vars, Tls)) != "" then Trim(Get(vars, Tls)) else Trim(amb.tls)
  }

  /** One entry after `c` is projected over `vars`. */
  function ProjectedAt(vars: Vars, c: Connection, amb: Ambient, k: Key): Option<string> {
    if Managed(k) then ConnectionAt(c, k)
    else if k.CredentialCommand? then CredentialAt(vars, amb)
    else if k.Tls? then Some(TlsFor(vars, amb, c.ToDolt? && c.gateway))
    else Lookup(vars, k)
  }

  ghost predicate IsProjected(after: Vars, vars: Vars, c: Connection, amb: Ambient) {
    forall k :: Lookup(after, k) == ProjectedAt(vars, c, amb, k)
  }

  // ---- which backend -----------------------------------------------------------------------

  datatype Choice =
    | NotOurs
    | Broken(handled: bool)
    | UseDolt
    | UseDoltlite
    | UsePostgres(pg: Pg, password: Option<string>)

  /** What a Postgres city imposes on a scope that inherits from it; None defers. */
  function CityChoice(city: Config): Option<Choice> {
    if city.authoritative.None? then Some(Broken(true))
    else if !city.authoritative.value then None
    else if city.meta.None? then Some(Broken(true))
    else match city.meta.value.backend
      case PostgresServer => Some(UsePostgres(city.meta.value.pg, city.pgPassword))
      case Unsupported(_) => Some(Broken(true))
      case _ => None
  }

  function Choose(s: Scope): Choice {
    if s.own.authoritative.None? then Broken(false)
    else if !s.own.authoritative.value then NotOurs
    else if s.own.meta.None? then Broken(true)
    else
      var b := s.own.meta.value.backend;
      if s.inheritsCity && b.Unset? && CityChoice(s.city).Some? then CityChoice(s.city).value
      else if s.inheritsCity && (b.Unset? || b.Doltlite?) && s.cityUsesDoltlite then UseDoltlite
      else match b
        case Unset => UseDolt
        case DoltServer => UseDolt
        case Doltlite => UseDoltlite
        case PostgresServer => UsePostgres(s.own.meta.value.pg, s.own.pgPassword)
        case Unsupported(_) => Broken(true)
  }

  datatype Outcome = Skipped | Done | Failed(handled: bool)

  function OutcomeOf(s: Scope): Outcome {
    match Choose(s)
    case NotOurs => Skipped
    case Broken(h) => Failed(h)
    case UseDolt => if s.target.Some? then Done else Failed(true)
    case UseDoltlite => Done
    case UsePostgres(_, password) => if password.Some? then Done else Failed(true)
  }

  function DoltOf(vars: Vars, t: Target, src: A.Sources, cityAuth: bool): Connection {
    ToDolt(FieldsOf(t, AuthOf(vars, t, src, cityAuth)), HostedGateway(t))
  }

  /** What is projected over `vars`, None where nothing is. */
  function ConnectionOf(vars: Vars, s: Scope): Option<Connection> {
    match Choose(s)
    case NotOurs => None
    case Broken(_) => None
    case UseDolt => if s.target.Some? then Some(DoltOf(vars, s.target.value, s.sources, s.cityAuth)) else None
    case UseDoltlite => Some(ToDoltlite)
    case UsePostgres(pg, password) => Some(if password.Some? then ToPostgres(pg, password.value) else Nowhere)
  }

  /** One entry the projection leaves, on success and on each failure. */
  function FinalAt(vars: Vars, s: Scope, amb: Ambient, k: Key): Option<string> {
    if ConnectionOf(vars, s).Some? then ProjectedAt(vars, ConnectionOf(vars, s).value, amb, k)
    else if Choose(s).UseDolt? && (IsBackend(k) || k.Postgres?) then None
    else Lookup(vars, k)
  }

  /** What the GC_DOLT_* connection mirrors onto the names bd reads. */
  datatype Server = Server(host: string, port: string, user: string, password: string, credential: Option<string>, tls: string)

  function ServerOf(vars: Vars, amb: Ambient, carry: bool): Server {
    Server(Trim(Get(vars, Dolt(GcHost))), Trim(Get(vars, Dolt(GcPort))), Trim(Get(vars, Dolt(GcUser))), Get(vars, Dolt(GcPassword)),
           CredentialAt(vars, amb), TlsFor(vars, amb, carry))
  }

  function ServerAt(v: Server, vars: Vars, k: Key): Option<string> {
    match k
    case Dolt(Host) => Bound(v.host)
    case Dolt(Port) => Some(v.port)
    case Dolt(User) => Bound(v.user)
    case Dolt(Password) => Bound(v.password)
    case CredentialCommand => if v.credential.Some? then v.credential else Lookup(vars, k)
    case Tls => Some(v.tls)
    case _ => Lookup(vars, k)
  }

  function AuthAt(auth: A.Resolved, vars: Vars, k: Key): Option<string> {
    match k
    case Dolt(GcUser) => Bound(auth.user)
    case Dolt(GcPassword) => Bound(auth.password)
    case Dolt(CredentialsFile) => Bound(auth.credentialsFile)
    case _ => Lookup(vars, k)
  }

  /** The names bd reads. */
  predicate Mirrored(k: Key) {
    k == Dolt(Host) || k == Dolt(Port) || k == Dolt(User) || k == Dolt(Password)
  }

  /** Fields whose mirror is themselves. */
  predicate Tidy(f: Fields) {
    Trim(f.host) == f.host && Trim(f.gcPort) == f.port && Trim(f.user) == f.user
  }

  lemma FieldsAreTidy(vars: Vars, t: Target, src: A.Sources, cityAuth: bool)
    ensures Tidy(FieldsOf(t, AuthOf(vars, t, src, cityAuth)))
  {
    TrimIdempotent(t.host);
    A.TextIsTrimmed(src.user, t.user);
  }

  /** The credentials the resolver finds in the map as it is. */
  function AuthHere(vars: Vars, user: string, src: A.Sources, cityAuth: bool): A.Resolved {
    A.Resolve(src, user, Get(vars, Dolt(GcHost)), Get(vars, Dolt(GcPort)), Get(vars, Dolt(CredentialsFile)),
              if cityAuth then Get(vars, Dolt(Password)) else "")
  }

  lemma AuthCleared(mid: Vars, vars: Vars, user: string, src: A.Sources, cityAuth: bool)
    requires forall d: DoltKey | d.GcHost? || d.GcPort? || d.CredentialsFile? :: Lookup(mid, Dolt(d)) == Lookup(vars, Dolt(d))
    requires Lookup(mid, Dolt(Password)) == if cityAuth then Lookup(vars, Dolt(Password)) else None
    ensures AuthHere(mid, user, src, true) == AuthHere(vars, user, src, cityAuth)
  {
    assert Get(mid, Dolt(GcHost)) == Get(vars, Dolt(GcHost)) && Get(mid, Dolt(GcPort)) == Get(vars, Dolt(GcPort));
    assert Get(mid, Dolt(CredentialsFile)) == Get(vars, Dolt(CredentialsFile));
  }

  /** With the target written, they are those of the scope. */
  lemma AuthAfterTarget(vars: Vars, mid: Vars, t: Target, src: A.Sources, cityAuth: bool)
    requires Lookup(mid, Dolt(GcHost)) == Bound(HostOf(t)) && Lookup(mid, Dolt(GcPort)) == Bound(PortOf(t))
    requires Lookup(mid, Dolt(CredentialsFile)) == Lookup(vars, Dolt(CredentialsFile))
    requires Lookup(mid, Dolt(Password)) == Lookup(vars, Dolt(Password))
    ensures AuthHere(mid, t.user, src, cityAuth) == AuthOf(vars, t, src, cityAuth)
  {
    assert Get(mid, Dolt(GcHost)) == HostOf(t) && Get(mid, Dolt(GcPort)) == PortOf(t);
    assert Get(mid, Dolt(CredentialsFile)) == Get(vars, Dolt(CredentialsFile)) && Get(mid, Dolt(Password)) == Get(vars, Dolt(Password));
  }

  function TargetAt(host: string, port: string, vars: Vars, k: Key): Option<string> {
    if IsBackend(k) || k.Postgres? then None
    else if k == Dolt(GcHost) then Bound(host)
    else if k == Dolt(GcPort) then Bound(port)
    else Lookup(vars, k)
  }

  lemma TargetThenAuth(vars: Vars, mid: Vars, t: Target, auth: A.Resolved, k: Key)
    requires Lookup(mid, k) == TargetAt(HostOf(t), PortOf(t), vars, k) && !Mirrored(k)
    ensures AuthAt(auth, mid, k) == if Managed(k) then ConnectionAt(ToDolt(FieldsOf(t, auth), false), k) else Lookup(vars, k)
  {
  }

  /** With the connection written under the GC_DOLT_* names, the mirror is the connection. */
  lemma ServerAfterFields(vars: Vars, mid: Vars, f: Fields, carry: bool, amb: Ambient)
    requires Tidy(f)
    requires forall k | !Mirrored(k) :: Lookup(mid, k) == if Managed(k) then ConnectionAt(ToDolt(f, false), k) else Lookup(vars, k)
    ensures ServerOf(mid, amb, carry) == Server(f.host, f.port, f.user, f.password, CredentialAt(vars, amb), TlsFor(vars, amb, carry))
  {
    assert Get(mid, Dolt(GcHost)) == f.host && Get(mid, Dolt(GcPort)) == f.gcPort;
    assert Get(mid, Dolt(GcUser)) == f.user && Get(mid, Dolt(GcPassword)) == f.password;
    SharedKept(vars, mid, carry, amb);
  }

  lemma SharedKept(vars: Vars, mid: Vars, carry: bool, amb: Ambient)
    requires Lookup(mid, CredCmd) == Lookup(vars, CredCmd) && Lookup(mid, Tls) == Lookup(vars, Tls)
    requires Lookup(mid, CredentialCommand) == Lookup(vars, CredentialCommand)
    ensures CredentialAt(mid, amb) == CredentialAt(vars, amb) && TlsFor(mid, amb, carry) == TlsFor(vars, amb, carry)
  {
    assert Get(mid, CredCmd) == Get(vars, CredCmd) && Get(mid, CredentialCommand) == Get(vars, CredentialCommand);
    assert Get(mid, Tls) == Get(vars, Tls);
  }

  /** Then the mirror completes the projection. */
  lemma MirrorCompletes(vars: Vars, mid: Vars, f: Fields, carry: bool, amb: Ambient, k: Key)
    requires !Mirrored(k) ==> Lookup(mid, k) == if Managed(k) then ConnectionAt(ToDolt(f, false), k) else Lookup(vars, k)
    ensures var v := Server(f.host, f.port, f.user, f.password, CredentialAt(vars, amb), TlsFor(vars, amb, carry));
            ServerAt(v, mid, k) == ProjectedAt(vars, ToDolt(f, carry), amb, k)
  {
  }

  /** With the connection cleared, the mirror is empty. */
  lemma ServerAfterClear(vars: Vars, mid: Vars, amb: Ambient)
    requires forall k | k in {Dolt(GcHost), Dolt(GcPort), Dolt(GcUser), Dolt(GcPassword)} :: Lookup(mid, k) == None
    requires forall k | k in {CredCmd, CredentialCommand, Tls} :: Lookup(mid, k) == Lookup(vars, k)
    ensures ServerOf(mid, amb, false) == Server("", "", "", "", CredentialAt(vars, amb), "")
  {
  }

  // ---- the map, in place -----------------------------------------------------------------

  class Env {
    var vars: Vars

    method Clear(keys: seq<Key>)
      modifies this
      ensures forall k :: Lookup(vars, k) == if k in keys then None else Lookup(old(vars), k)
    {
      for i := 0 to |keys|
        invariant forall k :: Lookup(vars, k) == if k in keys[..i] then None else Lookup(old(vars), k)
      {
        vars := vars - {keys[i]};
        assert keys[..i + 1] == keys[..i] + [keys[i]];
      }
      assert keys[..|keys|] == keys;
    }

    method ClearDolt()
      modifies this
      ensures forall k :: Lookup(vars, k) == if k.Dolt? then None else Lookup(old(vars), k)
    {
      Clear(DOLT);
      forall k ensures Lookup(vars, k) == if k.Dolt? then None else Lookup(old(vars), k) {
        DoltKeys(k);
      }
    }

    method ClearPostgres()
      modifies this
      ensures forall k :: Lookup(vars, k) == if k.Postgres? then None else Lookup(old(vars), k)
    {
      Clear(POSTGRES);
      forall k ensures Lookup(vars, k) == if k.Postgres? then None else Lookup(old(vars), k) {
        PgKeys(k);
      }
    }

    method ClearBackend()
      modifies this
      ensures forall k :: Lookup(vars, k) == if IsBackend(k) then None else Lookup(old(vars), k)
    {
      Clear(BACKEND);
    }

    method Set(key: Key, value: string)
      modifies this
      ensures forall k :: Lookup(vars, k) == if k == key then Some(value) else Lookup(old(vars), k)
    {
      vars := vars[key := value];
    }

    /** Sets a non-empty value, deletes the key otherwise. */
    method Put(key: Key, value: string)
      modifies this
      ensures forall k :: Lookup(vars, k) == if k == key then Bound(value) else Lookup(old(vars), k)
    {
      if value != "" {
        vars := vars[key := value];
      } else {
        vars := vars - {key};
      }
    }

    /** Copies the GC_DOLT_* connection onto the names bd reads. */
    method MirrorServer(v: Server)
      modifies this
      ensures forall k :: Lookup(vars, k) == ServerAt(v, old(vars), k)
    {
      Put(Dolt(Host), v.host);
      Set(Dolt(Port), v.port);
      Put(Dolt(User), v.user);
      Put(Dolt(Password), v.password);
      if v.credential.Some? {
        Set(CredentialCommand, v.credential.value);
      }
      Set(Tls, v.tls);
    }

    method ApplyDoltTarget(host: string, port: string)
      modifies this
      ensures forall k :: Lookup(vars, k) == if k == Dolt(GcHost) then Bound(host) else if k == Dolt(GcPort) then Bound(port)
                                             else Lookup(old(vars), k)
    {
      Put(Dolt(GcHost), host);
      Put(Dolt(GcPort), port);
    }

    method PutAuth(auth: A.Resolved)
      modifies this
      ensures forall k :: Lookup(vars, k) == match k
                case Dolt(GcUser) => Bound(auth.user)
                case Dolt(GcPassword) => Bound(auth.password)
                case Dolt(CredentialsFile) => Bound(auth.credentialsFile)
                case _ => Lookup(old(vars), k)
    {
      Put(Dolt(GcUser), auth.user);
      Put(Dolt(GcPassword), auth.password);
      Put(Dolt(CredentialsFile), auth.credentialsFile);
    }

    /** Resolves the credentials from the map itself; for foreign ones its
        passwords are cleared first. */
    method ReadAuth(user: string, src: A.Sources, cityAuth: bool) returns (auth: A.Resolved)
      modifies this
      ensures auth == AuthHere(old(vars), user, src, cityAuth)
      ensures forall k :: Lookup(vars, k) == if !cityAuth && (k == Dolt(GcPassword) || k == Dolt(Password)) then None else Lookup(old(vars), k)
    {
      if !cityAuth {
        Clear([Dolt(GcPassword), Dolt(Password)]);
      }
      auth := AuthHere(vars, user, src, true);
      AuthCleared(vars, old(vars), user, src, cityAuth);
    }

    method ApplyDoltAuth(user: string, src: A.Sources, cityAuth: bool) returns (auth: A.Resolved)
      modifies this
      ensures auth == AuthHere(old(vars), user, src, cityAuth)
      ensures forall k | !Mirrored(k) :: Lookup(vars, k) == AuthAt(auth, old(vars), k)
    {
      auth := ReadAuth(user, src, cityAuth);
      PutAuth(auth);
    }

    /** Backend and target, before the credentials are resolved. */
    method WriteTarget(t: Target)
      modifies this
      ensures forall k :: Lookup(vars, k) == TargetAt(HostOf(t), PortOf(t), old(vars), k)
    {
      ClearBackend();
      ClearPostgres();
      ApplyDoltTarget(HostOf(t), PortOf(t));
    }

    /** Everything but the names bd reads. */
    method WriteDolt(t: Target, src: A.Sources, cityAuth: bool) returns (auth: A.Resolved)
      modifies this
      ensures auth == AuthOf(old(vars), t, src, cityAuth)
      ensures forall k | !Mirrored(k) ::
                Lookup(vars, k) == if Managed(k) then ConnectionAt(ToDolt(FieldsOf(t, auth), false), k) else Lookup(old(vars), k)
    {
      WriteTarget(t);
      ghost var mid := vars;
      AuthAfterTarget(old(vars), mid, t, src, cityAuth);
      auth := ApplyDoltAuth(t.user, src, cityAuth);
      forall k | !Mirrored(k)
        ensures Lookup(vars, k) == if Managed(k) then ConnectionAt(ToDolt(FieldsOf(t, auth), false), k) else Lookup(old(vars), k)
      {
        TargetThenAuth(old(vars), mid, t, auth, k);
      }
    }

    method ProjectDolt(t: Target, src: A.Sources, cityAuth: bool, amb: Ambient)
      modifies this
      ensures IsProjected(vars, old(vars), DoltOf(old(vars), t, src, cityAuth), amb)
    {
      ghost var f, gateway := FieldsOf(t, AuthOf(vars, t, src, cityAuth)), HostedGateway(t);
      FieldsAreTidy(vars, t, src, cityAuth);
      var auth := WriteDolt(t, src, cityAuth);
      ghost var mid := vars;
      ServerAfterFields(old(vars), mid, f, gateway, amb);
      MirrorServer(ServerOf(vars, amb, HostedGateway(t)));
      forall k ensures Lookup(vars, k) == ProjectedAt(old(vars), ToDolt(f, gateway), amb, k) {
        MirrorCompletes(old(vars), mid, f, gateway, amb, k);
      }
    }

    method ProjectDoltlite(amb: Ambient)
      modifies this
      ensures IsProjected(vars, old(vars), ToDoltlite, amb)
    {
      WriteDoltlite();
      ghost var mid := vars;
      ServerAfterClear(old(vars), vars, amb);
      MirrorServer(ServerOf(vars, amb, false));
      forall k ensures Lookup(vars, k) == ProjectedAt(old(vars), ToDoltlite, amb, k) {
        assert k == Dolt(Port) || !Managed(k) || Lookup(mid, k) == ConnectionAt(ToDoltlite, k);
      }
    }

    method WriteDoltlite()
      modifies this
      ensures forall k :: Lookup(vars, k) == if k.Dolt? || k.Postgres? then None else if IsBackend(k) then Some("doltlite") else Lookup(old(vars), k)
    {
      ClearDolt();
      ClearPostgres();
      Set(GcBackend, "doltlite");
      Set(BeadsBackend, "doltlite");
    }

    method PutAddress(pg: Pg)
      modifies this
      ensures forall k :: Lookup(vars, k) == match k
                case Postgres(PgHost) => Some(pg.host)
                case Postgres(PgPort) => Some(pg.port)
                case Postgres(PgUser) => Some(pg.user)
                case Postgres(PgDatabase) => Some(pg.database)
                case _ => Lookup(old(vars), k)
    {
      Set(Postgres(PgHost), pg.host);
      Set(Postgres(PgPort), pg.port);
      Set(Postgres(PgUser), pg.user);
      Set(Postgres(PgDatabase), pg.database);
    }

    method PutPostgres(pg: Pg, password: string)
      modifies this
      ensures forall k :: Lookup(vars, k) == if k.Postgres? then ConnectionAt(ToPostgres(pg, password), k) else Lookup(old(vars), k)
    {
      Set(Postgres(GcPgPassword), password);
      Set(Postgres(PgPassword), password);
      PutAddress(pg);
      Put(Postgres(PgPassword), Get(vars, Postgres(GcPgPassword)));
    }

    method ProjectPostgres(pg: Pg, password: Option<string>, amb: Ambient) returns (ok: bool)
      modifies this
      ensures ok == password.Some?
      ensures IsProjected(vars, old(vars), if ok then ToPostgres(pg, password.value) else Nowhere, amb)
    {
      ClearAll(amb);
      ok := password.Some?;
      if ok {
        ghost var mid := vars;
        PutPostgres(pg, password.value);
        forall k ensures Lookup(vars, k) == ProjectedAt(old(vars), ToPostgres(pg, password.value), amb, k) {
          assert Lookup(mid, k) == ProjectedAt(old(vars), Nowhere, amb, k);
        }
      }
    }

    /** No connection at all: what is left if the password is not found. */
    method ClearAll(amb: Ambient)
      modifies this
      ensures IsProjected(vars, old(vars), Nowhere, amb)
    {
      ClearBackend();
      ClearDolt();
      ghost var mid := vars;
      ServerAfterClear(old(vars), vars, amb);
      MirrorServer(ServerOf(vars, amb, false));
      ClearPostgres();
      forall k ensures Lookup(vars, k) == ProjectedAt(old(vars), Nowhere, amb, k) {
        assert Lookup(mid, k) == if k.Dolt? || IsBackend(k) then None else Lookup(old(vars), k);
      }
    }

    /** applyCanonicalScopeBackendEnv. */
    method ApplyCanonicalScopeBackend(s: Scope, amb: Ambient) returns (r: Outcome)
      modifies this
      ensures r == OutcomeOf(s)
      ensures forall k :: Lookup(vars, k) == FinalAt(old(vars), s, amb, k)
    {
      if s.own.authoritative.None? {
        return Failed(false);
      }
      if !s.own.authoritative.value {
        return Skipped;
      }
      if s.own.meta.None? {
        return Failed(true);
      }
      var meta := s.own.meta.value;
      if s.inheritsCity && meta.backend.Unset? {
        var city := CityChoice(s.city);
        if city.Some? {
          if city.value.Broken? {
            return Failed(true);
          }
          var ok := ProjectPostgres(city.value.pg, city.value.password, amb);
          return if ok then Done else Failed(true);
        }
      }
      if s.inheritsCity && (meta.backend.Unset? || meta.backend.Doltlite?) && s.cityUsesDoltlite {
        ProjectDoltlite(amb);
        return Done;
      }
      match meta.backend {
        case Doltlite =>
          ProjectDoltlite(amb);
          return Done;
        case PostgresServer =>
          var ok := ProjectPostgres(meta.pg, s.own.pgPassword, amb);
          return if ok then Done else Failed(true);
        case Unsupported(_) =>
          return Failed(true);
        case _ =>
          if s.target.None? {
            ClearBackend();
            ClearPostgres();
            return Failed(true);
          }
          ProjectDolt(s.target.value, s.sources, s.cityAuth, amb);
          return Done;
      }
    }
  }

  // ---- one backend, from any starting map ------------------------------------------------

  ghost predicate IsFinal(after: Vars, vars: Vars, s: Scope, amb: Ambient) {
    forall k :: Lookup(after, k) == FinalAt(vars, s, amb, k)
  }

  /** A successful projection leaves non-empty connection keys of no backend
      but the chosen one, and asks for TLS only towards a hosted gateway. */
  lemma ProjectionIsExclusive(vars: Vars, after: Vars, s: Scope, amb: Ambient, k: Key)
    requires OutcomeOf(s).Done? && IsFinal(after, vars, s, amb) && Get(after, k) != ""
    ensures k.Dolt? ==> Choose(s).UseDolt?
    ensures IsBackend(k) ==> Choose(s).UseDoltlite?
    ensures k.Postgres? ==> Choose(s).UsePostgres?
    ensures k.Tls? ==> Choose(s).UseDolt? && HostedGateway(s.target.value)
  {
  }

  /** Every later reader of the map finds these keys set, if only to "". */
  lemma ProjectionShadows(vars: Vars, after: Vars, s: Scope, amb: Ambient)
    requires OutcomeOf(s).Done? && IsFinal(after, vars, s, amb)
    ensures Tls in after && Dolt(Port) in after
  {
    assert Lookup(after, Tls) == FinalAt(vars, s, amb, Tls);
    assert Lookup(after, Dolt(Port)) == FinalAt(vars, s, amb, Dolt(Port));
  }

  /** Projecting a second time changes nothing, although the credentials are
      then resolved from what the first run wrote. */
  lemma ProjectionTwice(vars: Vars, after: Vars, again: Vars, s: Scope, amb: Ambient)
    requires OutcomeOf(s).Done? && IsFinal(after, vars, s, amb) && IsFinal(again, after, s, amb)
    ensures again == after
  {
    forall k: Key
      ensures k in again <==> k in after
      ensures k in again ==> again[k] == after[k]
    {
      SettledAt(vars, after, s, amb, k);
      assert Lookup(again, k) == Lookup(after, k);
    }
  }

  lemma SettledAt(vars: Vars, after: Vars, s: Scope, amb: Ambient, k: Key)
    requires OutcomeOf(s).Done? && IsFinal(after, vars, s, amb)
    ensures FinalAt(after, s, amb, k) == Lookup(after, k)
  {
    if Choose(s).UseDolt? {
      AuthSettled(vars, after, s, amb);
    }
    ConnectionSettled(vars, after, s, amb, ConnectionOf(vars, s).value, k);
  }

  lemma ConnectionSettled(vars: Vars, after: Vars, s: Scope, amb: Ambient, c: Connection, k: Key)
    requires IsFinal(after, vars, s, amb) && ConnectionOf(vars, s) == ConnectionOf(after, s) == Some(c)
    ensures FinalAt(after, s, amb, k) == Lookup(after, k)
  {
    assert Lookup(after, k) == FinalAt(vars, s, amb, k);
    assert Lookup(after, Tls) == FinalAt(vars, s, amb, Tls);
    if k.Tls? {
      TrimIdempotent(Get(vars, Tls));
      TrimIdempotent(amb.tls);
    } else if k.CredentialCommand? {
      assert Lookup(after, CredCmd) == FinalAt(vars, s, amb, CredCmd);
      CommandSettled(vars, after, amb);
    }
  }

  lemma CommandSettled(vars: Vars, after: Vars, amb: Ambient)
    requires Lookup(after, CredCmd) == Lookup(vars, CredCmd) && Lookup(after, CredentialCommand) == CredentialAt(vars, amb)
    ensures CredentialAt(after, amb) == CredentialAt(vars, amb)
  {
    TrimIdempotent(Get(vars, CredCmd));
    TrimIdempotent(Get(vars, CredentialCommand));
    TrimIdempotent(amb.credCmd);
    TrimIdempotent(amb.credentialCommand);
  }

  /** A connection entry after a Dolt projection. */
  lemma DoltFinal(vars: Vars, after: Vars, s: Scope, amb: Ambient, k: Key)
    requires OutcomeOf(s).Done? && IsFinal(after, vars, s, amb) && Choose(s).UseDolt? && Managed(k)
    ensures Lookup(after, k) == ConnectionAt(DoltOf(vars, s.target.value, s.sources, s.cityAuth), k)
  {
    assert Lookup(after, k) == FinalAt(vars, s, amb, k);
  }

  lemma AuthSettled(vars: Vars, after: Vars, s: Scope, amb: Ambient)
    requires OutcomeOf(s).Done? && IsFinal(after, vars, s, amb) && Choose(s).UseDolt?
    ensures AuthOf(after, s.target.value, s.sources, s.cityAuth) == AuthOf(vars, s.target.value, s.sources, s.cityAuth)
  {
    var t, src := s.target.value, s.sources;
    var auth := AuthOf(vars, t, src, s.cityAuth);
    DoltFinal(vars, after, s, amb, Dolt(CredentialsFile));
    DoltFinal(vars, after, s, amb, Dolt(Password));
    assert Get(after, Dolt(CredentialsFile)) == auth.credentialsFile && Get(after, Dolt(Password)) == auth.password;
    A.ResolveAgain(src, t.user, HostOf(t), PortOf(t), Get(vars, Dolt(CredentialsFile)),
                   if s.cityAuth then Get(vars, Dolt(Password)) else "", s.cityAuth);
  }

  // ---- what the connection keeps of the starting map ------------------------------------------

  ghost predicate SameConnection(after: Vars, after': Vars) {
    forall k | Managed(k) :: Lookup(after, k) == Lookup(after', k)
  }

  /** Two starting maps agree for the credentials of the scope: one effective
      file and, where the map's password counts, one picked password. */
  predicate SameSources(vars: Vars, vars': Vars, s: Scope)
    requires s.target.Some?
  {
    var t, src := s.target.value, s.sources;
    var file, file' := Get(vars, Dolt(CredentialsFile)), Get(vars', Dolt(CredentialsFile));
    && A.FileOf(src, file) == A.FileOf(src, file')
    && (!s.cityAuth || A.Fixed(src) ||
        A.Pick(src, HostOf(t), PortOf(t), file, Get(vars, Dolt(Password))) == A.Pick(src, HostOf(t), PortOf(t), file', Get(vars', Dolt(Password))))
  }

  /** The connection keys afterwards are the same for two starting maps exactly
      when another backend is chosen or the two agree for the credentials. */
  lemma SameConnectionExactlyWhen(vars: Vars, after: Vars, vars': Vars, after': Vars, s: Scope, amb: Ambient)
    requires OutcomeOf(s).Done? && IsFinal(after, vars, s, amb) && IsFinal(after', vars', s, amb)
    ensures SameConnection(after, after') <==> !Choose(s).UseDolt? || SameSources(vars, vars', s)
  {
    if Choose(s).UseDolt? {
      var t, src := s.target.value, s.sources;
      var auth, auth' := AuthOf(vars, t, src, s.cityAuth), AuthOf(vars', t, src, s.cityAuth);
      A.SameAnswerExactlyWhen(src, t.user, HostOf(t), PortOf(t), Get(vars, Dolt(CredentialsFile)), if s.cityAuth then Get(vars, Dolt(Password)) else "",
                              Get(vars', Dolt(CredentialsFile)), if s.cityAuth then Get(vars', Dolt(Password)) else "");
      SameConnectionIsSameAuth(vars, after, vars', after', s, amb);
    }
  }

  lemma SameConnectionIsSameAuth(vars: Vars, after: Vars, vars': Vars, after': Vars, s: Scope, amb: Ambient)
    requires OutcomeOf(s).Done? && IsFinal(after, vars, s, amb) && IsFinal(after', vars', s, amb) && Choose(s).UseDolt?
    ensures SameConnection(after, after') <==>
            AuthOf(vars, s.target.value, s.sources, s.cityAuth) == AuthOf(vars', s.target.value, s.sources, s.cityAuth)
  {
    var t := s.target.value;
    var auth, auth' := AuthOf(vars, t, s.sources, s.cityAuth), AuthOf(vars', t, s.sources, s.cityAuth);
    forall k | Managed(k)
      ensures Lookup(after, k) == ConnectionAt(ToDolt(FieldsOf(t, auth), HostedGateway(t)), k)
      ensures Lookup(after', k) == ConnectionAt(ToDolt(FieldsOf(t, auth'), HostedGateway(t)), k)
    {
      DoltFinal(vars, after, s, amb, k);
      DoltFinal(vars', after', s, amb, k);
    }
    SameFields(after, after', FieldsOf(t, auth), FieldsOf(t, auth'), HostedGateway(t));
  }

  /** The connection keys tell the fields apart. */
  lemma SameFields(after: Vars, after': Vars, f: Fields, f': Fields, gateway: bool)
    requires forall k | Managed(k) :: Lookup(after, k) == ConnectionAt(ToDolt(f, gateway), k)
    requires forall k | Managed(k) :: Lookup(after', k) == ConnectionAt(ToDolt(f', gateway), k)
    ensures SameConnection(after, after') <==> f == f'
  {
    if SameConnection(after, after') {
      assert Lookup(after, Dolt(GcHost)) == Lookup(after', Dolt(GcHost));
      assert Lookup(after, Dolt(GcPort)) == Lookup(after', Dolt(GcPort));
      assert Lookup(after, Dolt(Port)) == Lookup(after', Dolt(Port));
      assert Lookup(after, Dolt(GcUser)) == Lookup(after', Dolt(GcUser));
      assert Lookup(after, Dolt(GcPassword)) == Lookup(after', Dolt(GcPassword));
      assert Lookup(after, Dolt(CredentialsFile)) == Lookup(after', Dolt(CredentialsFile));
    }
  }

  /** The two entries do matter: a credentials file in the starting map survives
      a projection that from the empty map leaves none. */
  lemma CredentialsFileSurvives(path: string, after: Vars, after': Vars, s: Scope, amb: Ambient)
    requires OutcomeOf(s).Done? && Choose(s).UseDolt? && Trim(path) == path != "" && Blank(s.sources.credentialsFile)
    requires IsFinal(after, map[Dolt(CredentialsFile) := path], s, amb) && IsFinal(after', map[], s, amb)
    ensures Lookup(after, Dolt(CredentialsFile)) == Some(path) && Lookup(after', Dolt(CredentialsFile)) == None
  {
    var vars: Vars := map[Dolt(CredentialsFile) := path];
    DoltFinal(vars, after, s, amb, Dolt(CredentialsFile));
    DoltFinal(map[], after', s, amb, Dolt(CredentialsFile));
    assert Get(vars, Dolt(CredentialsFile)) == path && Get(map[], Dolt(CredentialsFile)) == "";
  }

  /** And an old bd password becomes the city's password when nothing fixes one. */
  lemma PasswordSurvives(password: string, after: Vars, s: Scope, amb: Ambient)
    requires OutcomeOf(s).Done? && Choose(s).UseDolt? && Trim(password) == password != "" && s.cityAuth && !A.Fixed(s.sources)
    requires IsFinal(after, map[Dolt(Password) := password], s, amb)
    ensures Lookup(after, Dolt(GcPassword)) == Some(password)
  {
    var vars: Vars := map[Dolt(Password) := password];
    DoltFinal(vars, after, s, amb, Dolt(GcPassword));
    assert Get(vars, Dolt(Password)) == password;
  }
}
