/** Building the environment of a child process from the ambient entries and a
    projected map: cmd/gc/bd_env.go and internal/execenv/execenv.go. */
module ChildEnv {
  import opened Prelude
  import B = BackendEnv

  // ---- entries -----------------------------------------------------------------------------

  /** Index of the first '=', or the length. */
  function EqAt(e: string): (i: nat)
    ensures i <= |e| && '=' !in e[..i] && (i < |e| ==> e[i] == '=')
  {
    if e == [] || e[0] == '=' then 0
    else
      assert e[..EqAt(e[1..]) + 1] == [e[0]] + e[1..][..EqAt(e[1..])];
      EqAt(e[1..]) + 1
  }

  /** strings.Cut on "=": the key of an entry, None without one. */
  function KeyOf(e: string): Option<string> {
    if EqAt(e) < |e| then Some(e[..EqAt(e)]) else None
  }

  lemma {:induction false} EqIsFirst(e: string, n: nat)
    requires n < |e| && e[n] == '=' && '=' !in e[..n]
    ensures EqAt(e) == n
  {
  }

  /** For a key without '=', testing the prefix is testing the key. */
  lemma PrefixIsKey(e: string, key: string)
    requires '=' !in key
    ensures HasPrefix(e, key + "=") <==> KeyOf(e) == Some(key)
  {
    if HasPrefix(e, key + "=") {
      assert e[|key|] == (key + "=")[|key|] == '=';
      assert e[..|key|] == (key + "=")[..|key|] == key;
      EqIsFirst(e, |key|);
    }
    if KeyOf(e) == Some(key) {
      assert e[..|key| + 1] == key + "=";
    }
  }

  /** The entries of a key, in order. */
  function Of(s: seq<string>, k: Option<string>): seq<string> {
    if s == [] then []
    else Of(s[..|s| - 1], k) + if KeyOf(s[|s| - 1]) == k then [s[|s| - 1]] else []
  }

  lemma OfAppend(s: seq<string>, e: string, k: Option<string>)
    ensures Of(s + [e], k) == Of(s, k) + if KeyOf(e) == k then [e] else []
  {
  }

  lemma EntryKey(key: string, value: string)
    requires '=' !in key
    ensures KeyOf(key + "=" + value) == Some(key)
  {
    var e := key + "=" + value;
    assert e[..|key + "="|] == key + "=";
    PrefixIsKey(e, key);
  }

  // ---- removing and filtering ----------------------------------------------------------------

  ghost predicate Without(out: seq<string>, environ: seq<string>, key: string) {
    forall k :: Of(out, k) == if k == Some(key) then [] else Of(environ, k)
  }

  lemma WithoutStep(out: seq<string>, done: seq<string>, e: string, key: string)
    requires '=' !in key && Without(out, done, key)
    ensures Without(if HasPrefix(e, key + "=") then out else out + [e], done + [e], key)
  {
    PrefixIsKey(e, key);
    var next := if HasPrefix(e, key + "=") then out else out + [e];
    forall k ensures Of(next, k) == if k == Some(key) then [] else Of(done + [e], k) {
      assert Of(out, k) == if k == Some(key) then [] else Of(done, k);
      OfAppend(out, e, k);
      OfAppend(done, e, k);
    }
  }

  method RemoveEnvKey(environ: seq<string>, key: string) returns (out: seq<string>)
    ensures '=' !in key ==> Without(out, environ, key)
  {
    out := [];
    for i := 0 to |environ|
      invariant '=' !in key ==> Without(out, environ[..i], key)
    {
      assert environ[..i + 1] == environ[..i] + [environ[i]];
      if '=' !in key {
        WithoutStep(out, environ[..i], environ[i], key);
      }
      if !HasPrefix(environ[i], key + "=") {
        out := out + [environ[i]];
      }
    }
    assert environ[..|environ|] == environ;
  }

  predicate Secret(sensitive: string -> bool, k: Option<string>) {
    k.Some? && sensitive(k.value)
  }

  ghost predicate Filtered(out: seq<string>, environ: seq<string>, sensitive: string -> bool) {
    forall k :: Of(out, k) == if Secret(sensitive, k) then [] else Of(environ, k)
  }

  lemma FilterStep(out: seq<string>, done: seq<string>, e: string, sensitive: string -> bool)
    requires Filtered(out, done, sensitive)
    ensures Filtered(if Secret(sensitive, KeyOf(e)) then out else out + [e], done + [e], sensitive)
  {
  }

  method FilterInherited(environ: seq<string>, sensitive: string -> bool) returns (out: seq<string>)
    ensures Filtered(out, environ, sensitive)
  {
    out := [];
    for i := 0 to |environ|
      invariant Filtered(out, environ[..i], sensitive)
    {
      assert environ[..i + 1] == environ[..i] + [environ[i]];
      FilterStep(out, environ[..i], environ[i], sensitive);
      if !Secret(sensitive, KeyOf(environ[i])) {
        out := out + [environ[i]];
      }
    }
    assert environ[..|environ|] == environ;
  }

  // ---- overrides and passthrough ---------------------------------------------------------------

  const PASSTHROUGH: seq<string> := [
    "BEADS_DOLT_CREDENTIAL_COMMAND", "BEADS_DOLT_SERVER_TLS", "ORCHESTRATOR_KEY_FILE",
    "EIA_AUDIENCE", "EIA_SCOPES", "STS_MACHINE_URL", "STS_TOKEN_URL"]

  const DOLT_NAMES: seq<string> := [
    "GC_DOLT_HOST", "GC_DOLT_PORT", "GC_DOLT_USER", "GC_DOLT_PASSWORD", "BEADS_CREDENTIALS_FILE",
    "BEADS_DOLT_SERVER_HOST", "BEADS_DOLT_SERVER_PORT", "BEADS_DOLT_SERVER_USER", "BEADS_DOLT_PASSWORD"]

  const POSTGRES_NAMES: seq<string> := [
    "GC_POSTGRES_PASSWORD", "BEADS_POSTGRES_PASSWORD", "BEADS_POSTGRES_HOST", "BEADS_POSTGRES_PORT",
    "BEADS_POSTGRES_USER", "BEADS_POSTGRES_DATABASE"]

  const BACKEND_NAMES: seq<string> := ["GC_BEADS_BACKEND", "BEADS_BACKEND"]

  const CITY_NAMES: seq<string> := [
    "GC_CITY", "GC_CITY_ROOT", "GC_CITY_PATH", "GC_CITY_RUNTIME_DIR", "GC_DOLT", "GC_DOLT_CONFIG_FILE",
    "GC_DOLT_DATA_DIR", "GC_DOLT_LOCK_FILE", "GC_DOLT_LOG_FILE", "GC_DOLT_MANAGED_LOCAL", "GC_DOLT_PID_FILE",
    "GC_DOLT_STATE_FILE", "GC_PACK_STATE_DIR", "GC_RIG", "GC_RIG_ROOT"]

  const BD_NAMES: seq<string> := [
    "BEADS_DIR", "BEADS_DOLT_AUTO_START", "BD_DOLT_SYNC_CLI_REMOTES", "BEADS_DOLT_SYNC_CLI_REMOTES",
    "BD_BACKUP_ENABLED", "BEADS_BACKUP_ENABLED", "BD_ROUTING_MODE", "BEADS_ROUTING_MODE"]

  /** Keys always taken away from the ambient entries. */
  const STRIPPED: seq<string> := DOLT_NAMES + POSTGRES_NAMES + BACKEND_NAMES + CITY_NAMES + BD_NAMES

  predicate Plain(keys: set<string>) {
    forall key | key in keys :: '=' !in key
  }

  lemma PassthroughIsPlain()
    ensures forall key | key in PASSTHROUGH :: '=' !in key
  {
  }

  lemma StrippedIsPlain()
    ensures forall key | key in STRIPPED :: '=' !in key
  {
    CityNamesArePlain();
    BdNamesArePlain();
    ConnectionNamesArePlain();
  }

  lemma CityNamesArePlain()
    ensures forall key | key in CITY_NAMES :: '=' !in key
  {
  }

  lemma BdNamesArePlain()
    ensures forall key | key in BACKEND_NAMES + BD_NAMES :: '=' !in key
  {
  }

  lemma ConnectionNamesArePlain()
    ensures forall key | key in DOLT_NAMES + POSTGRES_NAMES :: '=' !in key
  {
  }

  /** The entries of one key in a child's environment. */
  function Expected(environ: seq<string>, overrides: map<string, string>, stripped: seq<string>,
                    sensitive: string -> bool, k: Option<string>): seq<string>
  {
    if k.None? then Of(environ, k)
    else if k.value in overrides then [k.value + "=" + overrides[k.value]]
    else if k.value in PASSTHROUGH && Of(environ, k) != [] then [Of(environ, k)[0]]
    else if k.value in stripped || sensitive(k.value) then []
    else Of(environ, k)
  }

  /** Takes every listed key away, in any order. */
  method StripAll(s: seq<string>, keys: set<string>) returns (out: seq<string>)
    ensures Plain(keys) ==> forall k :: Of(out, k) == if k.Some? && k.value in keys then [] else Of(s, k)
  {
    out := s;
    var todo := keys;
    while todo != {}
      invariant todo <= keys
      invariant Plain(keys) ==> forall k :: Of(out, k) == if k.Some? && k.value in keys && k.value !in todo then [] else Of(s, k)
    {
      var key :| key in todo;
      out := RemoveEnvKey(out, key);
      todo := todo - {key};
    }
  }

  /** The override entries, in any order of the map. */
  method AppendOverrides(s: seq<string>, overrides: map<string, string>) returns (out: seq<string>)
    ensures Plain(overrides.Keys) ==>
              forall k :: Of(out, k) == Of(s, k) + if k.Some? && k.value in overrides then [k.value + "=" + overrides[k.value]] else []
  {
    out := s;
    var todo := overrides.Keys;
    while todo != {}
      invariant todo <= overrides.Keys
      invariant Plain(overrides.Keys) ==>
                  forall k :: Of(out, k) == Of(s, k) + if k.Some? && k.value in overrides && k.value !in todo then [k.value + "=" + overrides[k.value]] else []
    {
      var key :| key in todo;
      var e := key + "=" + overrides[key];
      if Plain(overrides.Keys) {
        EntryKey(key, overrides[key]);
        forall k ensures Of(out + [e], k) == Of(out, k) + if k == Some(key) then [e] else [] {
          OfAppend(out, e, k);
        }
      }
      out := out + [e];
      todo := todo - {key};
    }
  }

  method FirstOf(environ: seq<string>, key: string) returns (e: Option<string>)
    requires '=' !in key
    ensures e == if Of(environ, Some(key)) == [] then None else Some(Of(environ, Some(key))[0])
    ensures e.Some? ==> KeyOf(e.value) == Some(key)
  {
    for i := 0 to |environ|
      invariant Of(environ[..i], Some(key)) == []
    {
      assert environ[..i + 1] == environ[..i] + [environ[i]];
      OfAppend(environ[..i], environ[i], Some(key));
      PrefixIsKey(environ[i], key);
      if HasPrefix(environ[i], key + "=") {
        OfKeepsPrefix(environ, i + 1, Some(key));
        return Some(environ[i]);
      }
    }
    assert environ[..|environ|] == environ;
    return None;
  }

  lemma {:induction false} OfKeepsPrefix(s: seq<string>, n: nat, k: Option<string>)
    requires n <= |s|
    ensures Of(s[..n], k) <= Of(s, k)
    decreases |s|
  {
    if n < |s| {
      OfKeepsPrefix(s[..|s| - 1], n, k);
      assert s[..|s| - 1][..n] == s[..n];
    } else {
      assert s[..n] == s;
    }
  }

  /** Whether a passthrough key is taken from the ambient entries. */
  predicate Carried(environ: seq<string>, overrides: map<string, string>, keys: set<string>, k: Option<string>) {
    k.Some? && k.value in keys && k.value !in overrides && Of(environ, k) != []
  }

  function Elems(keys: seq<string>): set<string> {
    set key | key in keys
  }

  /** One passthrough key. */
  method CarryOne(s: seq<string>, environ: seq<string>, overrides: map<string, string>, key: string) returns (out: seq<string>)
    requires '=' !in key
    ensures forall k :: Of(out, k) == if Carried(environ, overrides, {key}, k) then [Of(environ, k)[0]] else Of(s, k)
  {
    out := s;
    if key !in overrides {
      var e := FirstOf(environ, key);
      if e.Some? {
        var kept := RemoveEnvKey(s, key);
        out := kept + [e.value];
        forall k ensures Of(out, k) == Of(kept, k) + if k == Some(key) then [e.value] else [] {
          OfAppend(kept, e.value, k);
        }
      }
    }
  }

  method PreserveHosted(s: seq<string>, environ: seq<string>, overrides: map<string, string>, keys: seq<string>) returns (out: seq<string>)
    requires Plain(Elems(keys))
    ensures forall k :: Of(out, k) == if Carried(environ, overrides, Elems(keys), k) then [Of(environ, k)[0]] else Of(s, k)
  {
    out := s;
    ghost var done: set<string> := {};
    for i := 0 to |keys|
      invariant done == Elems(keys[..i])
      invariant forall k :: Of(out, k) == if Carried(environ, overrides, done, k) then [Of(environ, k)[0]] else Of(s, k)
    {
      assert keys[i] in Elems(keys);
      out := CarryOne(out, environ, overrides, keys[i]);
      assert keys[..i + 1] == keys[..i] + [keys[i]];
      done := done + {keys[i]};
    }
    assert keys[..|keys|] == keys;
  }

  /** mergeRuntimeEnv. */
  method MergeRuntimeEnv(environ: seq<string>, overrides: map<string, string>, sensitive: string -> bool) returns (out: seq<string>)
    ensures Plain(overrides.Keys) ==> forall k :: Of(out, k) == Expected(environ, overrides, STRIPPED, sensitive, k)
  {
    StrippedIsPlain();
    PassthroughIsPlain();
    var inherited := FilterInherited(environ, sensitive);
    var kept := StripAll(inherited, Elems(STRIPPED) + overrides.Keys);
    var full := AppendOverrides(kept, overrides);
    out := PreserveHosted(full, environ, overrides, PASSTHROUGH);
  }

  /** overlayEnvEntries: no overrides, no passthrough either. */
  method OverlayEnvEntries(environ: seq<string>, overrides: map<string, string>, sensitive: string -> bool) returns (out: seq<string>)
    ensures overrides == map[] ==> Filtered(out, environ, sensitive)
    ensures overrides != map[] && Plain(overrides.Keys) ==> forall k :: Of(out, k) == Expected(environ, overrides, [], sensitive, k)
  {
    out := FilterInherited(environ, sensitive);
    if overrides == map[] {
      return;
    }
    out := ReplaceAll(out, overrides);
    PassthroughIsPlain();
    out := PreserveHosted(out, environ, overrides, PASSTHROUGH);
  }

  method ReplaceAll(s: seq<string>, overrides: map<string, string>) returns (out: seq<string>)
    ensures Plain(overrides.Keys) ==>
              forall k :: Of(out, k) == if k.Some? && k.value in overrides then [k.value + "=" + overrides[k.value]] else Of(s, k)
  {
    out := s;
    var todo := overrides.Keys;
    while todo != {}
      invariant todo <= overrides.Keys
      invariant Plain(overrides.Keys) ==>
                  forall k :: Of(out, k) == if k.Some? && k.value in overrides && k.value !in todo then [k.value + "=" + overrides[k.value]] else Of(s, k)
    {
      var key :| key in todo;
      var e := key + "=" + overrides[key];
      var kept := RemoveEnvKey(out, key);
      if Plain(overrides.Keys) {
        EntryKey(key, overrides[key]);
        forall k ensures Of(kept + [e], k) == Of(kept, k) + if k == Some(key) then [e] else [] {
          OfAppend(kept, e, k);
        }
      }
      out := kept + [e];
      todo := todo - {key};
    }
  }

  // ---- from projection to child ------------------------------------------------------------

  /** The key an environment name stands for. */
  function KeyNamed(n: string): B.Key {
    if n == "BEADS_DOLT_SERVER_TLS" then B.Tls
    else if n == "BEADS_DOLT_CREDENTIAL_COMMAND" then B.CredentialCommand
    else if n == "GC_DOLT_CRED_CMD" then B.CredCmd
    else if n == "GC_BEADS_BACKEND" then B.GcBackend
    else if n == "BEADS_BACKEND" then B.BeadsBackend
    else if n == "GC_DOLT_HOST" then B.Dolt(B.GcHost)
    else if n == "GC_DOLT_PORT" then B.Dolt(B.GcPort)
    else if n == "GC_DOLT_USER" then B.Dolt(B.GcUser)
    else if n == "GC_DOLT_PASSWORD" then B.Dolt(B.GcPassword)
    else if n == "BEADS_CREDENTIALS_FILE" then B.Dolt(B.CredentialsFile)
    else if n == "BEADS_DOLT_SERVER_HOST" then B.Dolt(B.Host)
    else if n == "BEADS_DOLT_SERVER_PORT" then B.Dolt(B.Port)
    else if n == "BEADS_DOLT_SERVER_USER" then B.Dolt(B.User)
    else if n == "BEADS_DOLT_PASSWORD" then B.Dolt(B.Password)
    else if n == "GC_POSTGRES_PASSWORD" then B.Postgres(B.GcPgPassword)
    else if n == "BEADS_POSTGRES_PASSWORD" then B.Postgres(B.PgPassword)
    else if n == "BEADS_POSTGRES_HOST" then B.Postgres(B.PgHost)
    else if n == "BEADS_POSTGRES_PORT" then B.Postgres(B.PgPort)
    else if n == "BEADS_POSTGRES_USER" then B.Postgres(B.PgUser)
    else if n == "BEADS_POSTGRES_DATABASE" then B.Postgres(B.PgDatabase)
    else B.Other(n)
  }

  /** The projected map under its names. */
  ghost predicate Renders(overrides: map<string, string>, vars: B.Vars) {
    forall n :: B.Lookup(vars, KeyNamed(n)) == if n in overrides then Some(overrides[n]) else None
  }

  lemma ManagedIsStripped(n: string)
    requires B.Managed(KeyNamed(n))
    ensures n in STRIPPED
  {
  }

  lemma ManagedShape(n: string)
    requires B.Managed(KeyNamed(n))
    ensures |n| > 0 && (n[0] == 'G' || (n[0] == 'B' && |n| != 21 && |n| != 29))
  {
  }

  lemma PassthroughShape(n: string)
    requires n in PASSTHROUGH
    ensures |n| > 0 && n[0] != 'G' && (n[0] == 'B' ==> |n| == 21 || |n| == 29)
  {
  }

  /** A child spawned with a freshly projected map sees non-empty connection
      keys of the chosen backend only, and TLS only for a hosted gateway,
      whatever the ambient environment holds. */
  lemma ChildSeesOneBackend(environ: seq<string>, overrides: map<string, string>, sensitive: string -> bool, out: seq<string>,
                            vars: B.Vars, after: B.Vars, scope: B.Scope, amb: B.Ambient, n: string)
    requires forall k :: Of(out, k) == Expected(environ, overrides, STRIPPED, sensitive, k)
    requires B.OutcomeOf(scope).Done? && B.IsFinal(after, vars, scope, amb) && Renders(overrides, after)
    requires B.Managed(KeyNamed(n)) || KeyNamed(n).Tls?
    ensures |Of(out, Some(n))| <= 1
    ensures Of(out, Some(n)) != [] && Of(out, Some(n)) != [n + "="] ==>
              var k, c := KeyNamed(n), B.Choose(scope);
              && (k.Dolt? ==> c.UseDolt?)
              && (B.IsBackend(k) ==> c.UseDoltlite?)
              && (k.Postgres? ==> c.UsePostgres?)
              && (k.Tls? ==> c.UseDolt? && B.HostedGateway(scope.target.value))
  {
    B.ProjectionShadows(vars, after, scope, amb);
    assert B.Lookup(after, KeyNamed(n)) == if n in overrides then Some(overrides[n]) else None;
    if n in overrides {
      if overrides[n] != "" {
        B.ProjectionIsExclusive(vars, after, scope, amb, KeyNamed(n));
      } else {
        assert n + "=" + "" == n + "=";
      }
    } else {
      ManagedIsStripped(n);
      ManagedShape(n);
      if n in PASSTHROUGH {
        PassthroughShape(n);
      }
    }
  }
}
