/** Remote configuration of the agent: what one update may change, and what whole runs of
    accepted and rejected updates keep. URL parsing is a parameter. */
module AgentConfig {
  import opened PosixPath
  import opened Wrappers

  const REMOTE_CONFIG_MAX_BYTES: nat := 128 * 1024
  const REMOTE_CONFIG_MAX_NAME_BYTES: nat := 255
  const REMOTE_CONFIG_MAX_URL_BYTES: nat := 2048
  const REMOTE_CONFIG_MAX_PATH_BYTES: nat := 4096
  const REMOTE_CONFIG_MAX_ROOTS: nat := 32
  const REMOTE_CONFIG_MIN_INTERVAL_SECONDS: nat := 1
  const REMOTE_CONFIG_MAX_INTERVAL_SECONDS: nat := 86_400

  datatype Config = Config(
    server: string, grpcServer: string,
    caPath: Option<string>, domainName: Option<string>, certPath: Option<string>, keyPath: Option<string>,
    agentId: string, name: string, publicKey: string, privateKey: string,
    reportInterval: nat, ipReportInterval: nat,
    disableAutoUpdate: bool, disableForceUpdate: bool, disableCommandExecute: bool,
    disableNat: bool, disableSendQuery: bool,
    roots: seq<string>)

  datatype Value = Text(text: string) | Bool(flag: bool) | UInt(number: nat) | Array(items: seq<Value>) | Other

  /** A URL as the URL library reads it. */
  datatype Url = Url(scheme: string, hasHost: bool, hasCredentials: bool, text: string)
  type UrlParser = string -> Option<Url>

  /** One update message with what the agent finds on disk when it handles it: `patch` is
      `None` unless the payload is a JSON object, `disk` is `None` if the file is unreadable,
      `configFile` is the canonical location of the file, and `persists` says whether writing
      it back succeeds. */
  datatype Update = Update(
    size: nat, patch: Option<map<string, Value>>, disk: Option<Config>, configFile: Option<Path>, persists: bool)

  const KNOWN_FIELDS: set<string> := {
    "server", "grpc_server", "grpc_tls_ca_path", "grpc_tls_domain_name", "grpc_tls_client_cert_path",
    "grpc_tls_client_key_path", "name", "report_interval_seconds", "ip_report_interval_seconds",
    "disable_auto_update", "disable_force_update", "disable_command_execute", "disable_nat",
    "disable_send_query", "file_allowed_roots"}

  const FORBIDDEN_SYSTEM_PREFIXES: seq<seq<string>> := [
    ["etc"], ["private", "etc"], ["root"], ["proc"], ["sys"], ["dev"], ["boot"], ["run"], ["var", "run"],
    ["private", "var", "run"], ["usr"], ["bin"], ["sbin"], ["lib"], ["lib64"]]

  // ---- Field validators ----

  function Utf8Length(s: string): nat
  {
    if s == "" then 0
    else
      var n := s[0] as int;
      (if n < 0x80 then 1 else if n < 0x800 then 2 else if n < 0x10000 then 3 else 4) + Utf8Length(s[1..])
  }

  predicate IsControl(c: char)
  {
    var n := c as int;
    n < 0x20 || 0x7F <= n <= 0x9F
  }

  predicate HasControl(s: string)
  {
    exists i | 0 <= i < |s| :: IsControl(s[i])
  }

  function ValidateText(v: Value, maxBytes: nat): Outcome<string>
  {
    if !v.Text? then Err(())
    else
      var text := Trim(v.text);
      if 1 <= Utf8Length(text) <= maxBytes && !HasControl(text) then Ok(text) else Err(())
  }

  function ValidateUrl(v: Value, parse: UrlParser): Outcome<string>
  {
    if !v.Text? || !(1 <= Utf8Length(Trim(v.text)) <= REMOTE_CONFIG_MAX_URL_BYTES) then Err(())
    else
      match parse(Trim(v.text))
      case None => Err(())
      case Some(url) =>
        if (url.scheme == "http" || url.scheme == "https") && url.hasHost && !url.hasCredentials
        then Ok(TrimSlashes(url.text)) else Err(())
  }

  function TrimSlashes(s: string): string
  {
    if s != "" && s[|s| - 1] == '/' then TrimSlashes(s[..|s| - 1]) else s
  }

  function ValidateOptionalText(v: Value, maxBytes: nat): Outcome<Option<string>>
  {
    if !v.Text? then Err(())
    else if Trim(v.text) == "" then Ok(None)
    else
      match ValidateText(v, maxBytes)
      case Err(_) => Err(())
      case Ok(text) => Ok(Some(text))
  }

  /** The names of an absolute path without `..`, below the root, free of control characters. */
  function NormalPath(text: string): Option<seq<string>>
  {
    if HasControl(text) || !IsAbsolute(text) || Parts(text) == [] then None else NormalNames(Parts(text))
  }

  function ValidateOptionalPath(v: Value): Outcome<Option<string>>
  {
    match ValidateOptionalText(v, REMOTE_CONFIG_MAX_PATH_BYTES)
    case Err(_) => Err(())
    case Ok(None) => Ok(None)
    case Ok(Some(text)) => if NormalPath(text).Some? then Ok(Some(text)) else Err(())
  }

  function ValidateInterval(v: Value): Outcome<nat>
  {
    if v.UInt? && REMOTE_CONFIG_MIN_INTERVAL_SECONDS <= v.number <= REMOTE_CONFIG_MAX_INTERVAL_SECONDS
    then Ok(v.number) else Err(())
  }

  /** A disable flag may be set remotely but never cleared. */
  function ValidateDisableFlag(v: Value, currentlyDisabled: bool): (r: Outcome<bool>)
    ensures r.Ok? && currentlyDisabled ==> r.value
  {
    if !v.Bool? || (currentlyDisabled && !v.flag) then Err(()) else Ok(v.flag)
  }

  function ValidateRoots(items: seq<Value>): (r: Outcome<seq<string>>)
    ensures r.Ok? ==> |r.value| == |items|
    ensures r.Ok? ==>
              forall i | 0 <= i < |items| ::
                items[i].Text? && r.value[i] == Trim(items[i].text) && NormalPath(r.value[i]).Some?
  {
    if items == [] then Ok([])
    else
      var v := items[0];
      if !v.Text? || !(1 <= Utf8Length(Trim(v.text)) <= REMOTE_CONFIG_MAX_PATH_BYTES) || NormalPath(Trim(v.text)).None?
      then Err(())
      else
        match ValidateRoots(items[1..])
        case Err(_) => Err(())
        case Ok(rest) => Ok([Trim(v.text)] + rest)
  }

  predicate Protected(names: seq<string>)
  {
    exists i | 0 <= i < |FORBIDDEN_SYSTEM_PREFIXES| :: FORBIDDEN_SYSTEM_PREFIXES[i] <= names
  }

  /** A root that the current roots already contain, outside protected and own storage. */
  predicate WithinPolicy(candidate: string, roots: seq<string>, configFile: Option<Path>)
  {
    NormalPath(candidate).Some? &&
    var names := NormalPath(candidate).value;
    && !Protected(names)
    && !(configFile.Some? && Embed(names) <= configFile.value)
    && exists i | 0 <= i < |roots| :: NormalPath(Trim(roots[i])).Some? && NormalPath(Trim(roots[i])).value <= names
  }

  predicate RootsWithinPolicy(requested: seq<string>, roots: seq<string>, configFile: Option<Path>, locked: bool)
  {
    && !locked && roots != []
    && (forall i | 0 <= i < |roots| :: NormalPath(Trim(roots[i])).Some?)
    && (forall i | 0 <= i < |requested| :: WithinPolicy(requested[i], roots, configFile))
  }

  function NonEmpty(v: Option<string>): Option<string>
  {
    if v.Some? && Trim(v.value) != "" then Some(Trim(v.value)) else None
  }

  predicate TlsConsistent(c: Config)
  {
    && (NonEmpty(c.certPath).Some? <==> NonEmpty(c.keyPath).Some?)
    && (NonEmpty(c.caPath).Some? || NonEmpty(c.domainName).Some? || NonEmpty(c.certPath).Some?
        || NonEmpty(c.keyPath).Some?
        ==> "https://" <= c.grpcServer)
  }

  // ---- One update ----

  /** Local policy on disk may have been tightened since the agent started. */
  function WithDiskLocks(c: Config, disk: Config): Config
  {
    c.(disableAutoUpdate := c.disableAutoUpdate || disk.disableAutoUpdate,
       disableForceUpdate := c.disableForceUpdate || disk.disableForceUpdate,
       disableCommandExecute := c.disableCommandExecute || disk.disableCommandExecute,
       disableNat := c.disableNat || disk.disableNat,
       disableSendQuery := c.disableSendQuery || disk.disableSendQuery)
  }

  function PatchConnection(c0: Config, patch: map<string, Value>, parse: UrlParser): Outcome<Config>
  {
    var server :- if "server" in patch then ValidateUrl(patch["server"], parse) else Ok(c0.server);
    var grpcServer :- if "grpc_server" in patch then ValidateUrl(patch["grpc_server"], parse) else Ok(c0.grpcServer);
    var caPath :-
      if "grpc_tls_ca_path" in patch then ValidateOptionalPath(patch["grpc_tls_ca_path"]) else Ok(c0.caPath);
    var domainName :-
      if "grpc_tls_domain_name" in patch then ValidateOptionalText(patch["grpc_tls_domain_name"], 253)
      else Ok(c0.domainName);
    var certPath :-
      if "grpc_tls_client_cert_path" in patch then ValidateOptionalPath(patch["grpc_tls_client_cert_path"])
      else Ok(c0.certPath);
    var keyPath :-
      if "grpc_tls_client_key_path" in patch then ValidateOptionalPath(patch["grpc_tls_client_key_path"])
      else Ok(c0.keyPath);
    Ok(c0.(server := server, grpcServer := grpcServer, caPath := caPath, domainName := domainName,
           certPath := certPath, keyPath := keyPath))
  }

  function PatchReporting(c0: Config, patch: map<string, Value>): Outcome<Config>
  {
    var name :- if "name" in patch then ValidateText(patch["name"], REMOTE_CONFIG_MAX_NAME_BYTES) else Ok(c0.name);
    var report :-
      if "report_interval_seconds" in patch then ValidateInterval(patch["report_interval_seconds"])
      else Ok(c0.reportInterval);
    var ipReport :-
      if "ip_report_interval_seconds" in patch then ValidateInterval(patch["ip_report_interval_seconds"])
      else Ok(c0.ipReportInterval);
    Ok(c0.(name := name, reportInterval := report, ipReportInterval := ipReport))
  }

  function PatchFlag(patch: map<string, Value>, key: string, current: bool): (r: Outcome<bool>)
    ensures r.Ok? && current ==> r.value
  {
    if key in patch then ValidateDisableFlag(patch[key], current) else Ok(current)
  }

  function PatchLocks(c0: Config, patch: map<string, Value>): Outcome<Config>
  {
    var autoUpdate :- PatchFlag(patch, "disable_auto_update", c0.disableAutoUpdate);
    var forceUpdate :- PatchFlag(patch, "disable_force_update", c0.disableForceUpdate);
    var execute :- PatchFlag(patch, "disable_command_execute", c0.disableCommandExecute);
    var nat' :- PatchFlag(patch, "disable_nat", c0.disableNat);
    var query :- PatchFlag(patch, "disable_send_query", c0.disableSendQuery);
    Ok(c0.(disableAutoUpdate := autoUpdate, disableForceUpdate := forceUpdate, disableCommandExecute := execute,
           disableNat := nat', disableSendQuery := query))
  }

  /** Runs after the locks: a patch that disables command execution cannot also move roots. */
  function PatchRoots(c0: Config, patch: map<string, Value>, configFile: Option<Path>): Outcome<Config>
  {
    if "file_allowed_roots" !in patch then Ok(c0)
    else
      var v := patch["file_allowed_roots"];
      if !v.Array? || !(1 <= |v.items| <= REMOTE_CONFIG_MAX_ROOTS) then Err(())
      else
        var requested :- ValidateRoots(v.items);
        if RootsWithinPolicy(requested, c0.roots, configFile, c0.disableCommandExecute)
        then Ok(c0.(roots := requested)) else Err(())
  }

  /** `apply_remote_config`: the configuration in memory afterwards, or an error and no change. */
  function Apply(memory: Config, u: Update, parse: UrlParser): Outcome<Config>
  {
    if REMOTE_CONFIG_MAX_BYTES < u.size || u.patch.None? || !(u.patch.value.Keys <= KNOWN_FIELDS) || u.disk.None?
    then Err(())
    else
      var patch, disk := u.patch.value, u.disk.value;
      var c1 :- PatchConnection(WithDiskLocks(memory, disk), patch, parse);
      var c2 :- PatchReporting(c1, patch);
      var c3 :- PatchLocks(c2, patch);
      var c4 :- PatchRoots(c3, patch, u.configFile);
      if TlsConsistent(c4) && u.persists then Ok(c4.(privateKey := disk.privateKey)) else Err(())
  }

  const LOCK_FIELDS: set<string> := {
    "disable_auto_update", "disable_force_update", "disable_command_execute", "disable_nat", "disable_send_query"}

  predicate Locked(c: Config, key: string)
  {
    || (key == "disable_auto_update" && c.disableAutoUpdate) || (key == "disable_force_update" && c.disableForceUpdate)
    || (key == "disable_command_execute" && c.disableCommandExecute) || (key == "disable_nat" && c.disableNat)
    || (key == "disable_send_query" && c.disableSendQuery)
  }

  /** An update that only sets locks is accepted exactly if it is small enough, the file can be
      read and written, the connection is consistent, and it opens no lock of memory or disk. */
  lemma {:induction false} LockUpdateAcceptedIff(memory: Config, u: Update, parse: UrlParser)
    requires u.patch.Some? && u.patch.value.Keys <= LOCK_FIELDS
    ensures Apply(memory, u, parse).Ok? <==>
            && u.size <= REMOTE_CONFIG_MAX_BYTES && u.disk.Some? && u.persists && TlsConsistent(memory)
            && forall k | k in u.patch.value ::
                 u.patch.value[k].Bool?
                 && (Locked(memory, k) || Locked(u.disk.value, k) ==> u.patch.value[k].flag)
  {
    hide PatchConnection, PatchReporting, PatchLocks, PatchRoots, TlsConsistent;
    assert LOCK_FIELDS <= KNOWN_FIELDS;
    if u.disk.Some? {
      var patch, c := u.patch.value, WithDiskLocks(memory, u.disk.value);
      NothingElsePatched(c, patch, parse);
      LocksAcceptedIff(c, patch);
      if PatchLocks(c, patch).Ok? {
        OnlyLocksPatched(c, patch, u.configFile);
        SameConnection(memory, PatchLocks(c, patch).value);
      }
    }
  }

  lemma NothingElsePatched(c: Config, patch: map<string, Value>, parse: UrlParser)
    requires patch.Keys <= LOCK_FIELDS
    ensures PatchConnection(c, patch, parse) == Ok(c) && PatchReporting(c, patch) == Ok(c)
  {
    assert forall k | k in patch :: k in LOCK_FIELDS;
  }

  lemma OnlyLocksPatched(c: Config, patch: map<string, Value>, configFile: Option<Path>)
    requires patch.Keys <= LOCK_FIELDS && PatchLocks(c, patch).Ok?
    ensures var d := PatchLocks(c, patch).value;
            && PatchRoots(d, patch, configFile) == Ok(d)
            && d.server == c.server && d.grpcServer == c.grpcServer && d.caPath == c.caPath
            && d.domainName == c.domainName && d.certPath == c.certPath && d.keyPath == c.keyPath
  {
    hide PatchFlag;
    assert forall k | k in patch :: k in LOCK_FIELDS;
  }

  lemma SameConnection(c: Config, d: Config)
    requires d.server == c.server && d.grpcServer == c.grpcServer && d.caPath == c.caPath
    requires d.domainName == c.domainName && d.certPath == c.certPath && d.keyPath == c.keyPath
    ensures TlsConsistent(d) <==> TlsConsistent(c)
  {
  }

  lemma {:induction false} LocksAcceptedIff(c: Config, patch: map<string, Value>)
    requires patch.Keys <= LOCK_FIELDS
    ensures PatchLocks(c, patch).Ok? <==>
            forall k | k in patch :: patch[k].Bool? && (Locked(c, k) ==> patch[k].flag)
  {
    forall k | k in patch
      ensures k in LOCK_FIELDS
    {
    }
  }

  /** A path is allowed if it extends a configured root, component by component. */
  ghost predicate Allowed(c: Config, p: seq<string>)
  {
    exists i | 0 <= i < |c.roots| :: NormalPath(Trim(c.roots[i])).Some? && NormalPath(Trim(c.roots[i])).value <= p
  }

  /** Every lock of `a` is still locked in `b`. */
  predicate LocksKept(a: Config, b: Config)
  {
    && (a.disableAutoUpdate ==> b.disableAutoUpdate) && (a.disableForceUpdate ==> b.disableForceUpdate)
    && (a.disableCommandExecute ==> b.disableCommandExecute) && (a.disableNat ==> b.disableNat)
    && (a.disableSendQuery ==> b.disableSendQuery)
  }

  /** What the configuration may become, in any number of updates. */
  ghost predicate Narrowed(a: Config, b: Config)
  {
    && LocksKept(a, b)
    && (forall p | Allowed(b, p) :: Allowed(a, p))
    && b.agentId == a.agentId && b.publicKey == a.publicKey
    && (a.disableCommandExecute ==> b.roots == a.roots)
    && (b.roots == a.roots || forall i | 0 <= i < |b.roots| ::
          NormalPath(b.roots[i]).Some? && !Protected(NormalPath(b.roots[i]).value))
  }

  lemma {:induction false} TrimEndFixed(s: string)
    ensures TrimEnd(s) == "" || !IsWhitespace(TrimEnd(s)[|TrimEnd(s)| - 1])
    ensures TrimEnd(s) <= s
    decreases |s|
  {
    if s != "" && IsWhitespace(s[|s| - 1]) {
      TrimEndFixed(s[..|s| - 1]);
    }
  }

  lemma {:induction false} TrimStartFixed(s: string)
    ensures TrimStart(s) == "" || !IsWhitespace(TrimStart(s)[0])
    decreases |s|
  {
    if s != "" && IsWhitespace(s[0]) {
      TrimStartFixed(s[1..]);
    }
  }

  lemma TrimIdempotent(s: string)
    ensures Trim(Trim(s)) == Trim(s)
  {
    var t := TrimStart(s);
    TrimStartFixed(s);
    TrimEndFixed(t);
    var r := TrimEnd(t);
    if r != "" {
      assert r[0] == t[0];
    }
    assert TrimStart(r) == r && TrimEnd(r) == r;
  }

  lemma {:induction false} RequestedRootsNarrow(c: Config, requested: seq<string>, configFile: Option<Path>)
    requires RootsWithinPolicy(requested, c.roots, configFile, c.disableCommandExecute)
    requires forall i | 0 <= i < |requested| :: Trim(requested[i]) == requested[i]
    ensures Narrowed(c, c.(roots := requested))
  {
    hide NormalPath, Trim, Protected;
    forall p | Allowed(c.(roots := requested), p)
      ensures Allowed(c, p)
    {
      var i :| 0 <= i < |requested| && NormalPath(Trim(requested[i])).Some?
          && NormalPath(Trim(requested[i])).value <= p;
      assert WithinPolicy(requested[i], c.roots, configFile);
    }
  }

  lemma {:induction false} RootsNarrow(c: Config, patch: map<string, Value>, configFile: Option<Path>)
    requires PatchRoots(c, patch, configFile).Ok?
    ensures Narrowed(c, PatchRoots(c, patch, configFile).value)
    ensures PatchRoots(c, patch, configFile).value == c.(roots := PatchRoots(c, patch, configFile).value.roots)
  {
    hide Narrowed, RootsWithinPolicy, ValidateRoots, NormalPath, Trim;
    NarrowedRefl(c);
    if "file_allowed_roots" in patch {
      var items := patch["file_allowed_roots"].items;
      var requested := ValidateRoots(items).value;
      forall i | 0 <= i < |requested|
        ensures Trim(requested[i]) == requested[i]
      {
        TrimIdempotent(items[i].text);
      }
      RequestedRootsNarrow(c, requested, configFile);
    }
  }

  lemma NarrowedRefl(c: Config)
    ensures Narrowed(c, c)
  {
  }

  lemma {:induction false} NarrowedTransitive(a: Config, b: Config, c: Config)
    requires Narrowed(a, b) && Narrowed(b, c)
    ensures Narrowed(a, c)
  {
    hide NormalPath, Trim, Protected;
  }

  /** Configurations that agree on locks, identity and roots narrow to the same things. */
  lemma SameNarrowed(a: Config, b: Config)
    requires LocksKept(a, b) && b.roots == a.roots && b.agentId == a.agentId && b.publicKey == a.publicKey
    ensures Narrowed(a, b)
  {
    hide NormalPath, Trim, Protected;
  }

  predicate SamePolicy(a: Config, b: Config)
  {
    LocksKept(a, b) && LocksKept(b, a) && b.roots == a.roots && b.agentId == a.agentId && b.publicKey == a.publicKey
  }

  lemma ConnectionPatched(c: Config, patch: map<string, Value>, parse: UrlParser)
    requires PatchConnection(c, patch, parse).Ok?
    ensures SamePolicy(c, PatchConnection(c, patch, parse).value)
  {
    hide ValidateUrl, ValidateOptionalPath, ValidateOptionalText;
  }

  lemma ReportingPatched(c: Config, patch: map<string, Value>)
    requires PatchReporting(c, patch).Ok?
    ensures SamePolicy(c, PatchReporting(c, patch).value)
  {
    hide ValidateText, ValidateInterval;
  }

  lemma LocksPatched(c: Config, patch: map<string, Value>)
    requires PatchLocks(c, patch).Ok?
    ensures var d := PatchLocks(c, patch).value;
            LocksKept(c, d) && d.roots == c.roots && d.agentId == c.agentId && d.publicKey == c.publicKey
  {
    hide ValidateDisableFlag;
  }

  /** An accepted update only narrows what the agent may do, honours the locks found on disk,
      and leaves a consistent TLS setup. */
  lemma {:induction false} ApplyNarrows(memory: Config, u: Update, parse: UrlParser)
    requires Apply(memory, u, parse).Ok?
    ensures var c := Apply(memory, u, parse).value;
            && Narrowed(memory, c) && LocksKept(u.disk.value, c)
            && TlsConsistent(c) && c.privateKey == u.disk.value.privateKey
  {
    hide PatchConnection, PatchReporting, PatchLocks, PatchRoots, Narrowed, NonEmpty;
    var patch, disk := u.patch.value, u.disk.value;
    var c0 := WithDiskLocks(memory, disk);
    var c1 := PatchConnection(c0, patch, parse).value;
    var c2 := PatchReporting(c1, patch).value;
    var c3 := PatchLocks(c2, patch).value;
    var c4 := PatchRoots(c3, patch, u.configFile).value;
    ConnectionPatched(c0, patch, parse);
    ReportingPatched(c1, patch);
    LocksPatched(c2, patch);
    RootsNarrow(c3, patch, u.configFile);
    SameNarrowed(memory, c3);
    SameNarrowed(c4, c4.(privateKey := disk.privateKey));
    NarrowedTransitive(memory, c3, c4);
    NarrowedTransitive(memory, c4, c4.(privateKey := disk.privateKey));
  }

  /** A lock is set afterwards exactly if memory, disk or the patch asked for it. */
  predicate LockOutcome(before: bool, disk: bool, patch: map<string, Value>, key: string, after: bool)
  {
    after <==> before || disk || (key in patch && patch[key] == Bool(true))
  }

  /** An accepted update takes full effect: every lock it asks for is set, no other, and the
      roots it asks for are the new roots. */
  lemma {:induction false} AcceptedUpdateTakesEffect(memory: Config, u: Update, parse: UrlParser)
    requires Apply(memory, u, parse).Ok?
    ensures var c, d, patch := Apply(memory, u, parse).value, u.disk.value, u.patch.value;
            && LockOutcome(memory.disableAutoUpdate, d.disableAutoUpdate, patch, "disable_auto_update",
                           c.disableAutoUpdate)
            && LockOutcome(memory.disableForceUpdate, d.disableForceUpdate, patch, "disable_force_update",
                           c.disableForceUpdate)
            && LockOutcome(memory.disableCommandExecute, d.disableCommandExecute, patch, "disable_command_execute",
                           c.disableCommandExecute)
            && LockOutcome(memory.disableNat, d.disableNat, patch, "disable_nat", c.disableNat)
            && LockOutcome(memory.disableSendQuery, d.disableSendQuery, patch, "disable_send_query", c.disableSendQuery)
            && (if "file_allowed_roots" in patch
                then patch["file_allowed_roots"].Array?
                     && Ok(c.roots) == ValidateRoots(patch["file_allowed_roots"].items)
                else c.roots == memory.roots)
  {
    hide PatchReporting, PatchConnection, PatchLocks, PatchRoots, NonEmpty, TlsConsistent, Narrowed, ValidateRoots;
    var patch, disk := u.patch.value, u.disk.value;
    var c0 := WithDiskLocks(memory, disk);
    var c1 := PatchConnection(c0, patch, parse).value;
    var c2 := PatchReporting(c1, patch).value;
    var c3 := PatchLocks(c2, patch).value;
    ConnectionPatched(c0, patch, parse);
    ReportingPatched(c1, patch);
    LocksPatched(c2, patch);
    LocksPatchedExactly(c2, patch);
    RootsNarrow(c3, patch, u.configFile);
    RootsPatchedExactly(c3, patch, u.configFile);
  }

  lemma LocksPatchedExactly(c: Config, patch: map<string, Value>)
    requires PatchLocks(c, patch).Ok?
    ensures var d := PatchLocks(c, patch).value;
            && LockOutcome(c.disableAutoUpdate, false, patch, "disable_auto_update", d.disableAutoUpdate)
            && LockOutcome(c.disableForceUpdate, false, patch, "disable_force_update", d.disableForceUpdate)
            && LockOutcome(c.disableCommandExecute, false, patch, "disable_command_execute", d.disableCommandExecute)
            && LockOutcome(c.disableNat, false, patch, "disable_nat", d.disableNat)
            && LockOutcome(c.disableSendQuery, false, patch, "disable_send_query", d.disableSendQuery)
  {
  }

  lemma RootsPatchedExactly(c: Config, patch: map<string, Value>, configFile: Option<Path>)
    requires PatchRoots(c, patch, configFile).Ok?
    ensures var d := PatchRoots(c, patch, configFile).value;
            if "file_allowed_roots" in patch
            then patch["file_allowed_roots"].Array? && Ok(d.roots) == ValidateRoots(patch["file_allowed_roots"].items)
            else d.roots == c.roots
  {
    hide ValidateRoots, RootsWithinPolicy;
  }

  // ---- Runs of updates ----

  /** A rejected update leaves the configuration as it was. */
  function Step(c: Config, u: Update, parse: UrlParser): Config
  {
    match Apply(c, u, parse) case Err(_) => c case Ok(d) => d
  }

  function Run(c: Config, updates: seq<Update>, parse: UrlParser): Config
  {
    if updates == [] then c else Step(Run(c, updates[..|updates| - 1], parse), updates[|updates| - 1], parse)
  }

  lemma {:induction false} StepNarrows(c: Config, u: Update, parse: UrlParser)
    ensures Narrowed(c, Step(c, u, parse))
    ensures TlsConsistent(c) ==> TlsConsistent(Step(c, u, parse))
  {
    hide Narrowed, Apply, TlsConsistent;
    NarrowedRefl(c);
    if Apply(c, u, parse).Ok? {
      ApplyNarrows(c, u, parse);
    }
  }

  /** Over every run of accepted and rejected updates, each configuration is a narrowing of
      every earlier one: locks stay set, allowed paths only shrink, identity is fixed. */
  lemma {:induction false} RunNarrows(c: Config, updates: seq<Update>, parse: UrlParser, i: nat, j: nat)
    requires i <= j <= |updates|
    ensures Narrowed(Run(c, updates[..i], parse), Run(c, updates[..j], parse))
    ensures TlsConsistent(Run(c, updates[..i], parse)) ==> TlsConsistent(Run(c, updates[..j], parse))
    decreases j
  {
    hide Narrowed, Step, TlsConsistent;
    if i == j {
      NarrowedRefl(Run(c, updates[..i], parse));
    } else {
      RunNarrows(c, updates, parse, i, j - 1);
      var before := Run(c, updates[..j - 1], parse);
      assert updates[..j][..j - 1] == updates[..j - 1];
      StepNarrows(before, updates[j - 1], parse);
      NarrowedTransitive(Run(c, updates[..i], parse), before, Run(c, updates[..j], parse));
    }
  }

  /** From the first accepted update on the TLS rule holds, and a lock found on disk by an
      accepted update is set for good. */
  lemma {:induction false} AcceptedUpdateLasts(c: Config, updates: seq<Update>, parse: UrlParser, i: nat, j: nat)
    requires i < j <= |updates| && Apply(Run(c, updates[..i], parse), updates[i], parse).Ok?
    ensures TlsConsistent(Run(c, updates[..j], parse))
    ensures LocksKept(updates[i].disk.value, Run(c, updates[..j], parse))
  {
    hide Apply, TlsConsistent, NormalPath, Trim, Protected;
    assert updates[..i + 1][..i] == updates[..i];
    ApplyNarrows(Run(c, updates[..i], parse), updates[i], parse);
    RunNarrows(c, updates, parse, i + 1, j);
  }
}
