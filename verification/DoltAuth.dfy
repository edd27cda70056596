/** The resolver of Dolt credentials for a scope: internal/doltauth/auth.go.
    File contents and the process environment are inputs; the projected map
    contributes a password and the path of a credentials file. */
module DoltAuth {
  import opened Prelude
  import P = PoolSlotName

  /** Process environment, the scope's own .env password, and the passwords the
      credentials files hold by path, host and port. */
  datatype Sources = Sources(
    user: string, password: string, credentialsFile: string,
    storePassword: string, defaultFile: string, entries: map<(string, string, nat), string>)

  datatype Resolved = Resolved(user: string, password: string, credentialsFile: string)

  function FirstText(a: string, b: string): string {
    if Trim(a) != "" then Trim(a) else Trim(b)
  }

  /** strconv.Atoi on the trimmed port; 0 where it fails or is not positive. */
  function PortNumber(port: string): nat {
    var t := Trim(port);
    var d := if t != "" && t[0] == '+' then t[1..] else t;
    if d == "" || !P.AllDigits(d) || P.Value(d) > P.MAX_INT then 0 else P.Value(d)
  }

  function HostFor(host: string, port: string): string {
    if Trim(host) == "" && PortNumber(port) > 0 then "127.0.0.1" else Trim(host)
  }

  function FileOf(src: Sources, mapFile: string): string {
    FirstText(mapFile, src.credentialsFile)
  }

  /** What the credentials file says of the endpoint. */
  function FromFile(src: Sources, host: string, port: string, file: string): string {
    var path := if file != "" then file else src.defaultFile;
    var key := (path, HostFor(host, port), PortNumber(port));
    if key.1 == "" || key.2 == 0 || path == "" || key !in src.entries then "" else src.entries[key]
  }

  /** A password that comes before anything the map holds. */
  predicate Fixed(src: Sources) {
    Trim(src.password) != "" || src.storePassword != ""
  }

  function PasswordOf(src: Sources, host: string, port: string, file: string, mapPassword: string): string {
    if Trim(src.password) != "" then Trim(src.password)
    else if src.storePassword != "" then src.storePassword
    else if Trim(mapPassword) != "" then Trim(mapPassword)
    else FromFile(src, host, port, file)
  }

  /** ResolveScopedFromEnv, on the four entries it reads, as the caller writes
      the answer: trimmed. */
  function Resolve(src: Sources, fallbackUser: string, host: string, port: string, mapFile: string, mapPassword: string): Resolved {
    var file := FileOf(src, mapFile);
    Resolved(FirstText(src.user, fallbackUser), Trim(PasswordOf(src, host, port, file, mapPassword)), file)
  }

  lemma TextIsTrimmed(a: string, b: string)
    ensures Trim(FirstText(a, b)) == FirstText(a, b)
  {
    TrimIdempotent(a);
    TrimIdempotent(b);
  }

  /** Resolving again from what was written gives the same answer, also when the
      password first came from a file and now comes from the map. */
  lemma ResolveAgain(src: Sources, user: string, host: string, port: string, mapFile: string, mapPassword: string, keep: bool)
    ensures var r := Resolve(src, user, host, port, mapFile, mapPassword);
            Resolve(src, user, host, port, r.credentialsFile, if keep then r.password else mapPassword) == r
  {
    var r := Resolve(src, user, host, port, mapFile, mapPassword);
    TextIsTrimmed(mapFile, src.credentialsFile);
    assert FileOf(src, r.credentialsFile) == r.credentialsFile;
    TrimIdempotent(PasswordOf(src, host, port, r.credentialsFile, mapPassword));
    TrimIdempotent(FromFile(src, host, port, r.credentialsFile));
    TrimIdempotent(mapPassword);
  }

  /** The password the map and the file give between them. */
  function Pick(src: Sources, host: string, port: string, mapFile: string, mapPassword: string): string {
    if Trim(mapPassword) != "" then Trim(mapPassword) else Trim(FromFile(src, host, port, FileOf(src, mapFile)))
  }

  /** The answer depends on the map exactly through the effective file and,
      where nothing fixes the password, through the picked one. */
  lemma SameAnswerExactlyWhen(src: Sources, user: string, host: string, port: string, file: string, password: string, file': string, password': string)
    ensures Resolve(src, user, host, port, file, password) == Resolve(src, user, host, port, file', password') <==>
            && FileOf(src, file) == FileOf(src, file')
            && (Fixed(src) || Pick(src, host, port, file, password) == Pick(src, host, port, file', password'))
  {
    TrimIdempotent(password);
    TrimIdempotent(password');
  }
}
