/**
 Layered configuration: defaults, then the file, then the environment, then
 the flags are merged in place into one object. The outcome is that the first
 layer that sets a field wins.
 */
module Config {
  import opened Prelude

  // --- the object that Load fills in ---

  class Credential {
    var certPath: string
    var keyPath: string

    constructor ()
      ensures certPath == "" && keyPath == ""
    {
      certPath, keyPath := "", "";
    }
  }

  datatype Pair = Pair(cert: string, key: string)

  // What a Config object holds, with the admin credential by value.
  datatype Settings = Settings(
    url: string,
    targetCert: string,
    cert: string,
    key: string,
    admin: Option<Pair>,
    listenAddr: string,
    listenPort: int,
    project: string,
    waitTimeout: int,
    inlineMax: int,
    dir: string)

  // One layer: what it sets. `adminNull`: the layer sets the whole admin
  // credential to null before it sets its halves.
  datatype Layer = Layer(
    url: Option<string>,
    targetCert: Option<string>,
    cert: Option<string>,
    key: Option<string>,
    adminNull: bool,
    adminMade: bool,          // it makes an admin credential if there is none
    adminCert: Option<string>,
    adminKey: Option<string>,
    listenAddr: Option<string>,
    listenPort: Option<int>,
    project: Option<string>,
    waitTimeout: Option<int>,
    inlineMax: Option<int>,
    dir: Option<string>)

  function Or<T>(o: Option<T>, other: T): T {
    match o
    case None => other
    case Some(t) => t
  }

  function First<T>(a: Option<T>, b: Option<T>): Option<T> {
    if a.Some? then a else b
  }

  function ApplyAdminPaths(cert: Option<string>, key: Option<string>, admin: Option<Pair>): Option<Pair> {
    if cert.None? && key.None? then admin
    else
      var p := Or(admin, Pair("", ""));
      Some(Pair(Or(cert, p.cert), Or(key, p.key)))
  }

  function ApplyAdmin(l: Layer, admin: Option<Pair>): Option<Pair> {
    var base := if l.adminNull then None else admin;
    var made := if l.adminMade then Some(Or(base, Pair("", ""))) else base;
    ApplyAdminPaths(l.adminCert, l.adminKey, made)
  }

  // A layer over settings: what it sets wins, the rest stays.
  function Apply(l: Layer, s: Settings): Settings {
    Settings(
      Or(l.url, s.url),
      Or(l.targetCert, s.targetCert),
      Or(l.cert, s.cert),
      Or(l.key, s.key),
      ApplyAdmin(l, s.admin),
      Or(l.listenAddr, s.listenAddr),
      Or(l.listenPort, s.listenPort),
      Or(l.project, s.project),
      Or(l.waitTimeout, s.waitTimeout),
      Or(l.inlineMax, s.inlineMax),
      Or(l.dir, s.dir))
  }

  class Config {
    var url: string
    var targetCert: string
    const credential: Credential
    var admin: Credential?
    var listenAddr: string
    var listenPort: int
    var project: string
    var waitTimeout: int
    var inlineMax: int
    var dir: string

    ghost predicate Valid()
      reads this
    {
      admin != credential
    }

    // Default
    constructor (defaultDir: string)
      ensures Valid() && fresh(credential)
      ensures View() == Defaults(defaultDir)
    {
      url, targetCert := "https://127.0.0.1:8443", "";
      credential := new Credential();
      admin := null;
      listenAddr, listenPort := "127.0.0.1", 8002;
      project, waitTimeout, inlineMax := "default", 60, 0x10_0000;
      dir := defaultDir;
    }

    ghost function AdminView(): Option<Pair>
      reads this, admin
    {
      if admin == null then None else Some(Pair(admin.certPath, admin.keyPath))
    }

    ghost function View(): Settings
      reads this, credential, admin
    {
      Settings(url, targetCert, credential.certPath, credential.keyPath, AdminView(),
               listenAddr, listenPort, project, waitTimeout, inlineMax, dir)
    }

    // adminCertPathRef and adminKeyPathRef: the credential behind the
    // reference, made on the spot if need be.
    method AdminRef() returns (r: Credential)
      requires Valid()
      modifies `admin
      ensures Valid() && r == admin
      ensures old(admin) != null ==> admin == old(admin)
      ensures old(admin) == null ==> fresh(r) && r.certPath == "" && r.keyPath == ""
    {
      if admin == null { admin := new Credential(); }
      r := admin;
    }
  }

  function Defaults(dir: string): Settings {
    Settings("https://127.0.0.1:8443", "", "", "", None, "127.0.0.1", 8002, "default", 60, 0x10_0000, dir)
  }

  // --- the config file ---

  // `admin_credential` in the file: not there, null, or an object.
  datatype AdminEntry = NoEntry | NullEntry | Entry(cert: Option<string>, key: Option<string>)

  // A JSON object that unmarshals: each field it has (and is not null).
  datatype File = File(
    url: Option<string>,
    targetCert: Option<string>,
    cert: Option<string>,
    key: Option<string>,
    admin: AdminEntry,
    listenAddr: Option<string>,
    listenPort: Option<int>,
    project: Option<string>,
    waitTimeout: Option<int>,
    inlineMax: Option<int>)

  function FileLayer(f: File, dir: string): Layer {
    Layer(f.url, f.targetCert, f.cert, f.key,
          f.admin.NullEntry?, f.admin.Entry?,
          if f.admin.Entry? then f.admin.cert else None,
          if f.admin.Entry? then f.admin.key else None,
          f.listenAddr, f.listenPort, f.project, f.waitTimeout, f.inlineMax, Some(dir))
  }

  // json.Unmarshal into the object, and the directory of the file.
  method LoadFile(c: Config, f: File, dir: string)
    requires c.Valid()
    modifies c, c.credential, c.admin
    ensures c.Valid() && (c.admin == old(c.admin) || c.admin == null || fresh(c.admin))
    ensures c.View() == Apply(FileLayer(f, dir), old(c.View()))
  {
    c.url := Or(f.url, c.url);
    c.targetCert := Or(f.targetCert, c.targetCert);
    c.credential.certPath := Or(f.cert, c.credential.certPath);
    c.credential.keyPath := Or(f.key, c.credential.keyPath);
    match f.admin {
      case NoEntry =>
      case NullEntry => c.admin := null;
      case Entry(cert, key) =>
        var a := c.AdminRef();
        a.certPath, a.keyPath := Or(cert, a.certPath), Or(key, a.keyPath);
    }
    c.listenAddr := Or(f.listenAddr, c.listenAddr);
    c.listenPort := Or(f.listenPort, c.listenPort);
    c.project := Or(f.project, c.project);
    c.waitTimeout := Or(f.waitTimeout, c.waitTimeout);
    c.inlineMax := Or(f.inlineMax, c.inlineMax);
    c.dir := dir;
  }

  // --- the environment ---

  predicate IsDigit(c: char) {
    '0' <= c <= '9'
  }

  function Number(s: string): nat
    requires forall c | c in s :: IsDigit(c)
  {
    if s == "" then 0
    else
      assert s[|s| - 1] in s && IsDigit(s[|s| - 1]);
      Number(s[..|s| - 1]) * 10 + (s[|s| - 1] as int - '0' as int)
  }

  // strconv.Atoi: an optional sign, decimal digits, in the range of an int.
  function Atoi(s: string): Option<int> {
    var digits := if s != "" && (s[0] == '-' || s[0] == '+') then s[1..] else s;
    if digits == "" || !(forall c | c in digits :: IsDigit(c)) then None
    else
      var magnitude: int := Number(digits);
      var n := if s[0] == '-' then -magnitude else magnitude;
      if MIN_INT64 <= n <= MAX_INT64 then Some(n) else None
  }

  function Decimal(n: nat): string {
    (if n < 10 then "" else Decimal(n / 10)) + ['0' + (n % 10) as char]
  }

  lemma {:induction false} DecimalIsNumber(n: nat)
    ensures Decimal(n) != "" && (forall c | c in Decimal(n) :: IsDigit(c)) && Number(Decimal(n)) == n
  {
    if n < 10 {
    } else {
      DecimalIsNumber(n / 10);
    }
    var front := if n < 10 then "" else Decimal(n / 10);
    assert Decimal(n)[..|Decimal(n)| - 1] == front;
  }

  // What Atoi makes of decimal digits, after each sign.
  lemma AtoiOfDigits(digits: string)
    requires digits != "" && forall c | c in digits :: IsDigit(c)
    ensures var n := Number(digits);
            && Atoi(digits) == (if n <= MAX_INT64 then Some(n) else None)
            && Atoi("+" + digits) == Atoi(digits)
            && Atoi("-" + digits) == (if n <= -MIN_INT64 then Some(0 - n as int) else None)
  {
    assert digits[0] in digits;
    assert ("+" + digits)[1..] == digits && ("-" + digits)[1..] == digits;
  }

  // Atoi reads every int back from its decimal form, with or without a plus
  // sign, and refuses what does not fit.
  lemma AtoiReadsDecimals(n: nat)
    ensures Atoi(Decimal(n)) == (if n <= MAX_INT64 then Some(n) else None)
    ensures Atoi("+" + Decimal(n)) == Atoi(Decimal(n))
    ensures Atoi("-" + Decimal(n)) == (if n <= -MIN_INT64 then Some(0 - n as int) else None)
  {
    DecimalIsNumber(n);
    AtoiOfDigits(Decimal(n));
  }

  // --- the texts that are numbers ---

  function Zeros(k: nat): string {
    seq(k, _ => '0')
  }

  // s is n written in decimal: an optional sign, leading zeros, the digits of
  // the magnitude; and n fits into an int.
  ghost predicate ReadsAs(s: string, n: int) {
    && -0x8000_0000_0000_0000 <= n <= 0x7FFF_FFFF_FFFF_FFFF
    && exists k: nat, m: nat ::
         var digits := Zeros(k) + Decimal(m);
         (n == m && (s == digits || s == "+" + digits)) || (n == 0 - m as int && s == "-" + digits)
  }

  lemma DecimalGrows(m: nat, d: nat)
    requires d < 10
    ensures Decimal(m * 10 + d) == (if m == 0 then "" else Decimal(m)) + ['0' + d as char]
  {
    var n := m * 10 + d;
    assert n / 10 == m && n % 10 == d;
  }

  lemma OneMoreDigit(k: nat, m: nat, d: nat) returns (k': nat)
    requires d < 10
    ensures Zeros(k) + Decimal(m) + ['0' + d as char] == Zeros(k') + Decimal(m * 10 + d)
  {
    DecimalGrows(m, d);
    k' := k;
    if m == 0 {
      assert Decimal(0) == "0";
      assert Zeros(k) + "0" == Zeros(k + 1);
      k' := k + 1;
    }
  }

  lemma {:induction false} DigitsAreDecimal(digits: string) returns (k: nat)
    requires digits != "" && forall c | c in digits :: IsDigit(c)
    ensures digits == Zeros(k) + Decimal(Number(digits))
  {
    var front, last := digits[..|digits| - 1], digits[|digits| - 1];
    assert last in digits;
    var d := last as int - '0' as int;
    if front == "" {
      k := 0;
      assert digits == [last] && Decimal(d) == "" + [last];
    } else {
      k := DigitsAreDecimal(front);
      k := OneMoreDigit(k, Number(front), d);
      assert digits == front + [last];
    }
  }

  lemma {:induction false} ZerosAreNothing(k: nat)
    ensures (forall c | c in Zeros(k) :: IsDigit(c)) && Number(Zeros(k)) == 0
  {
    if k == 0 {
    } else {
      ZerosAreNothing(k - 1);
      assert Zeros(k)[..k - 1] == Zeros(k - 1);
    }
  }

  lemma {:induction false} LeadingZeros(k: nat, digits: string)
    requires forall c | c in digits :: IsDigit(c)
    ensures (forall c | c in Zeros(k) + digits :: IsDigit(c)) && Number(Zeros(k) + digits) == Number(digits)
  {
    ZerosAreNothing(k);
    if digits == "" {
      assert Zeros(k) + digits == Zeros(k);
    } else {
      var front := digits[..|digits| - 1];
      LeadingZeros(k, front);
      assert digits[|digits| - 1] in digits;
      assert (Zeros(k) + digits)[..k + |digits| - 1] == Zeros(k) + front;
    }
  }

  lemma DecimalsAreRead(s: string, n: int)
    requires ReadsAs(s, n)
    ensures Atoi(s) == Some(n)
  {
    var k: nat, m: nat :|
      var digits := Zeros(k) + Decimal(m);
      (n == m && (s == digits || s == "+" + digits)) || (n == 0 - m as int && s == "-" + digits);
    DecimalIsNumber(m);
    LeadingZeros(k, Decimal(m));
    AtoiOfDigits(Zeros(k) + Decimal(m));
  }

  lemma ReadIsDecimal(s: string)
    requires Atoi(s).Some?
    ensures ReadsAs(s, Atoi(s).value)
  {
    var signed := s[0] == '-' || s[0] == '+';
    var digits := if signed then s[1..] else s;
    assert s == if signed then [s[0]] + digits else digits;
    var k := DigitsAreDecimal(digits);
    var m := Number(digits);
    assert digits == Zeros(k) + Decimal(m);
  }

  // Atoi reads exactly the decimal texts of the ints.
  lemma AtoiIff(s: string, n: int)
    ensures Atoi(s) == Some(n) <==> ReadsAs(s, n)
  {
    if ReadsAs(s, n) { DecimalsAreRead(s, n); }
    if Atoi(s) == Some(n) { ReadIsDecimal(s); }
  }

  type Environment = map<string, string>

  function EnvString(env: Environment, name: string): Option<string> {
    if name in env && env[name] != "" then Some(env[name]) else None
  }

  function EnvInt(env: Environment, name: string): Option<int> {
    var v := EnvString(env, name);
    if v.None? then None else Atoi(v.value)
  }

  function EnvLayer(env: Environment): Layer {
    Layer(EnvString(env, "INCUS_MCP_TARGET_URL"),
          EnvString(env, "INCUS_MCP_TARGET_CERT"),
          EnvString(env, "INCUS_MCP_CERT_PATH"),
          EnvString(env, "INCUS_MCP_KEY_PATH"),
          false, true,
          EnvString(env, "INCUS_MCP_ADMIN_CERT_PATH"),
          EnvString(env, "INCUS_MCP_ADMIN_KEY_PATH"),
          EnvString(env, "INCUS_MCP_LISTEN_ADDR"),
          EnvInt(env, "INCUS_MCP_LISTEN_PORT"),
          EnvString(env, "INCUS_MCP_PROJECT"),
          EnvInt(env, "INCUS_MCP_WAIT_TIMEOUT"),
          None, None)
  }

  // The admin part of applyEnv.
  method ApplyEnvAdmin(c: Config, env: Environment)
    requires c.Valid()
    modifies c`admin, c.admin
    ensures c.Valid() && (c.admin == old(c.admin) || fresh(c.admin))
    ensures c.AdminView() == ApplyAdmin(EnvLayer(env), old(c.AdminView()))
  {
    var a := c.AdminRef();
    a.certPath := Or(EnvString(env, "INCUS_MCP_ADMIN_CERT_PATH"), a.certPath);
    a := c.AdminRef();
    a.keyPath := Or(EnvString(env, "INCUS_MCP_ADMIN_KEY_PATH"), a.keyPath);
  }

  // applyEnv. The admin references are taken whether or not the variables are
  // set, so an admin credential is always there afterwards.
  method ApplyEnv(c: Config, env: Environment)
    requires c.Valid()
    modifies c, c.credential, c.admin
    ensures c.Valid() && (c.admin == old(c.admin) || c.admin == null || fresh(c.admin))
    ensures c.View() == Apply(EnvLayer(env), old(c.View()))
  {
    c.url := Or(EnvString(env, "INCUS_MCP_TARGET_URL"), c.url);
    c.targetCert := Or(EnvString(env, "INCUS_MCP_TARGET_CERT"), c.targetCert);
    c.credential.certPath := Or(EnvString(env, "INCUS_MCP_CERT_PATH"), c.credential.certPath);
    c.credential.keyPath := Or(EnvString(env, "INCUS_MCP_KEY_PATH"), c.credential.keyPath);
    ApplyEnvAdmin(c, env);
    c.listenAddr := Or(EnvString(env, "INCUS_MCP_LISTEN_ADDR"), c.listenAddr);
    c.listenPort := Or(EnvInt(env, "INCUS_MCP_LISTEN_PORT"), c.listenPort);
    c.project := Or(EnvString(env, "INCUS_MCP_PROJECT"), c.project);
    c.waitTimeout := Or(EnvInt(env, "INCUS_MCP_WAIT_TIMEOUT"), c.waitTimeout);
  }

  // --- the flags ---

  // Zero values mean "not set".
  datatype Options = Options(
    configFile: string,
    url: string,
    targetCert: string,
    cert: string,
    key: string,
    adminCert: string,
    adminKey: string,
    listenAddr: string,
    listenPort: int,
    project: string,
    waitTimeout: int)

  function NonEmpty(s: string): Option<string> {
    if s != "" then Some(s) else None
  }

  function NonZero(n: int): Option<int> {
    if n != 0 then Some(n) else None
  }

  function FlagLayer(o: Options): Layer {
    Layer(NonEmpty(o.url), NonEmpty(o.targetCert), NonEmpty(o.cert), NonEmpty(o.key),
          false, false, NonEmpty(o.adminCert), NonEmpty(o.adminKey),
          NonEmpty(o.listenAddr), NonZero(o.listenPort), NonEmpty(o.project), NonZero(o.waitTimeout),
          None, None)
  }

  // The admin part of applyFlags: unlike the environment, flags that are not
  // set make no credential.
  method ApplyAdminFlags(c: Config, cert: string, key: string)
    requires c.Valid()
    modifies c`admin, c.admin
    ensures c.Valid() && (c.admin == old(c.admin) || fresh(c.admin))
    ensures c.AdminView() == ApplyAdminPaths(NonEmpty(cert), NonEmpty(key), old(c.AdminView()))
  {
    if cert != "" {
      if c.admin == null { c.admin := new Credential(); }
      c.admin.certPath := cert;
    }
    if key != "" {
      if c.admin == null { c.admin := new Credential(); }
      c.admin.keyPath := key;
    }
  }

  // applyFlags
  method ApplyFlags(c: Config, o: Options)
    requires c.Valid()
    modifies c, c.credential, c.admin
    ensures c.Valid() && (c.admin == old(c.admin) || c.admin == null || fresh(c.admin))
    ensures c.View() == Apply(FlagLayer(o), old(c.View()))
  {
    c.url := Or(NonEmpty(o.url), c.url);
    c.targetCert := Or(NonEmpty(o.targetCert), c.targetCert);
    c.credential.certPath := Or(NonEmpty(o.cert), c.credential.certPath);
    c.credential.keyPath := Or(NonEmpty(o.key), c.credential.keyPath);
    ApplyAdminFlags(c, o.adminCert, o.adminKey);
    c.listenAddr := Or(NonEmpty(o.listenAddr), c.listenAddr);
    c.listenPort := Or(NonZero(o.listenPort), c.listenPort);
    c.project := Or(NonEmpty(o.project), c.project);
    c.waitTimeout := Or(NonZero(o.waitTimeout), c.waitTimeout);
  }

  // --- Validate and Load ---

  predicate HasPrefix(s: string, p: string) {
    p <= s
  }

  predicate IsHttp(url: string) {
    HasPrefix(url, "https://") || HasPrefix(url, "http://")
  }

  predicate Acceptable(s: Settings) {
    && IsHttp(s.url)
    && s.cert != "" && s.key != ""
    && (s.admin.Some? ==> (s.admin.value.cert == "" <==> s.admin.value.key == ""))
    && 1 <= s.listenPort <= 65535
    && s.waitTimeout >= 1
    && s.inlineMax >= 1
    && s.project != ""
  }

  // Validate, check by check.
  method Validate(c: Config) returns (ok: bool)
    ensures ok <==> Acceptable(c.View())
  {
    if c.url == "" { return false; }
    if !HasPrefix(c.url, "https://") && !HasPrefix(c.url, "http://") { return false; }
    if c.credential.certPath == "" || c.credential.keyPath == "" { return false; }
    if (c.credential.certPath != "") != (c.credential.keyPath != "") { return false; }
    if c.admin != null {
      if (c.admin.certPath == "") != (c.admin.keyPath == "") { return false; }
    }
    if c.listenPort < 1 || c.listenPort > 65535 { return false; }
    if c.waitTimeout < 1 { return false; }
    if c.inlineMax < 1 { return false; }
    if c.project == "" { return false; }
    return true;
  }

  // What reading the config file gives.
  datatype FileAnswer = Unreadable | Malformed | Parsed(file: File)

  const NO_FILE := File(None, None, None, None, NoEntry, None, None, None, None, None)

  // The configuration of one start: flags over environment over file over
  // defaults. `dir` is the directory of the file that was read, or else the
  // default one.
  function Effective(file: File, env: Environment, o: Options, dir: string): Settings {
    Apply(FlagLayer(o), Apply(EnvLayer(env), Apply(FileLayer(file, dir), Defaults(dir))))
  }

  lemma NoFileChangesNothing(dir: string)
    ensures Apply(FileLayer(NO_FILE, dir), Defaults(dir)) == Defaults(dir)
  {
  }

  // Load. `dirOf` is filepath.Dir; `defaultDir` the directory of the default
  // config file.
  method Load(o: Options, answer: FileAnswer, env: Environment, dirOf: string -> string, defaultDir: string)
    returns (c: Config?)
    // Without a config file: nothing from a file, and the default directory.
    ensures var none := File(None, None, None, None, NoEntry, None, None, None, None, None);
      o.configFile == "" ==>
        && (c != null <==> Acceptable(Effective(none, env, o, defaultDir)))
        && (c != null ==> c.View() == Effective(none, env, o, defaultDir))
    // With one: what was parsed, and its directory; or no configuration.
    ensures o.configFile != "" && !answer.Parsed? ==> c == null
    ensures o.configFile != "" && answer.Parsed? ==>
      && (c != null <==> Acceptable(Effective(answer.file, env, o, dirOf(o.configFile))))
      && (c != null ==> c.View() == Effective(answer.file, env, o, dirOf(o.configFile)))
    // The admin credential is there, with both paths or neither.
    ensures c != null ==> fresh(c) && c.admin != null && (c.admin.certPath == "" <==> c.admin.keyPath == "")
  {
    var cfg := new Config(defaultDir);
    if o.configFile != "" {
      if !answer.Parsed? { return null; }
      LoadFile(cfg, answer.file, dirOf(o.configFile));
    } else {
      NoFileChangesNothing(defaultDir);
    }
    ApplyEnv(cfg, env);
    ApplyFlags(cfg, o);
    var ok := Validate(cfg);
    return if ok then cfg else null;
  }

  // --- what layering comes to ---

  // Two layers as one.
  function Compose(a: Layer, b: Layer): Layer {
    Layer(
      First(a.url, b.url), First(a.targetCert, b.targetCert), First(a.cert, b.cert), First(a.key, b.key),
      a.adminNull || b.adminNull,
      a.adminMade || (!a.adminNull && (b.adminMade || b.adminCert.Some? || b.adminKey.Some?)),
      if a.adminNull then a.adminCert else First(a.adminCert, b.adminCert),
      if a.adminNull then a.adminKey else First(a.adminKey, b.adminKey),
      First(a.listenAddr, b.listenAddr), First(a.listenPort, b.listenPort), First(a.project, b.project),
      First(a.waitTimeout, b.waitTimeout), First(a.inlineMax, b.inlineMax), First(a.dir, b.dir))
  }

  // Applying a composition is applying one layer after the other ...
  lemma ComposeApplies(a: Layer, b: Layer, s: Settings)
    ensures Apply(Compose(a, b), s) == Apply(a, Apply(b, s))
  {
  }

  // ... so how successive layers are grouped does not matter ...
  lemma ComposeAssociates(a: Layer, b: Layer, c: Layer)
    ensures Compose(Compose(a, b), c) == Compose(a, Compose(b, c))
  {
  }

  // ... and applying one twice is applying it once.
  lemma ApplyTwice(l: Layer, s: Settings)
    ensures Apply(l, Apply(l, s)) == Apply(l, s)
  {
  }

  // Flags, then environment, then file, then default: the first that sets a
  // text wins, for every field ...
  lemma FirstLayerWins(f: File, env: Environment, o: Options, dir: string)
    ensures var s := Effective(f, env, o, dir);
      && s.url == (if o.url != "" then o.url
           else if "INCUS_MCP_TARGET_URL" in env && env["INCUS_MCP_TARGET_URL"] != "" then env["INCUS_MCP_TARGET_URL"]
           else if f.url.Some? then f.url.value else "https://127.0.0.1:8443")
      && s.targetCert == (if o.targetCert != "" then o.targetCert
           else if "INCUS_MCP_TARGET_CERT" in env && env["INCUS_MCP_TARGET_CERT"] != "" then env["INCUS_MCP_TARGET_CERT"]
           else if f.targetCert.Some? then f.targetCert.value else "")
      && s.cert == (if o.cert != "" then o.cert
           else if "INCUS_MCP_CERT_PATH" in env && env["INCUS_MCP_CERT_PATH"] != "" then env["INCUS_MCP_CERT_PATH"]
           else if f.cert.Some? then f.cert.value else "")
      && s.key == (if o.key != "" then o.key
           else if "INCUS_MCP_KEY_PATH" in env && env["INCUS_MCP_KEY_PATH"] != "" then env["INCUS_MCP_KEY_PATH"]
           else if f.key.Some? then f.key.value else "")
      && s.listenAddr == (if o.listenAddr != "" then o.listenAddr
           else if "INCUS_MCP_LISTEN_ADDR" in env && env["INCUS_MCP_LISTEN_ADDR"] != "" then env["INCUS_MCP_LISTEN_ADDR"]
           else if f.listenAddr.Some? then f.listenAddr.value else "127.0.0.1")
      && s.project == (if o.project != "" then o.project
           else if "INCUS_MCP_PROJECT" in env && env["INCUS_MCP_PROJECT"] != "" then env["INCUS_MCP_PROJECT"]
           else if f.project.Some? then f.project.value else "default")
      && s.inlineMax == (if f.inlineMax.Some? then f.inlineMax.value else 1048576)
      && s.dir == dir
  {
  }

  // ... for each half of the admin credential, wherever the other comes from ...
  lemma AdminHalvesWin(f: File, env: Environment, o: Options, dir: string)
    ensures var s := Effective(f, env, o, dir);
      && s.admin.Some?
      && s.admin.value.cert == (if o.adminCert != "" then o.adminCert
           else if "INCUS_MCP_ADMIN_CERT_PATH" in env && env["INCUS_MCP_ADMIN_CERT_PATH"] != "" then env["INCUS_MCP_ADMIN_CERT_PATH"]
           else if f.admin.Entry? && f.admin.cert.Some? then f.admin.cert.value else "")
      && s.admin.value.key == (if o.adminKey != "" then o.adminKey
           else if "INCUS_MCP_ADMIN_KEY_PATH" in env && env["INCUS_MCP_ADMIN_KEY_PATH"] != "" then env["INCUS_MCP_ADMIN_KEY_PATH"]
           else if f.admin.Entry? && f.admin.key.Some? then f.admin.key.value else "")
  {
  }

  // ... and for numbers, where a variable that is set and does not read as one
  // does not count.
  lemma NumbersWin(f: File, env: Environment, o: Options, dir: string)
    ensures var s := Effective(f, env, o, dir);
            var (port, wait) := ("INCUS_MCP_LISTEN_PORT", "INCUS_MCP_WAIT_TIMEOUT");
      && (o.listenPort != 0 ==> s.listenPort == o.listenPort)
      && (o.listenPort == 0 ==>
           forall n | port in env && ReadsAs(env[port], n) :: s.listenPort == n)
      && (o.listenPort == 0 && !(port in env && exists n :: ReadsAs(env[port], n)) ==>
           s.listenPort == if f.listenPort.Some? then f.listenPort.value else 8002)
      && (o.waitTimeout != 0 ==> s.waitTimeout == o.waitTimeout)
      && (o.waitTimeout == 0 ==>
           forall n | wait in env && ReadsAs(env[wait], n) :: s.waitTimeout == n)
      && (o.waitTimeout == 0 && !(wait in env && exists n :: ReadsAs(env[wait], n)) ==>
           s.waitTimeout == if f.waitTimeout.Some? then f.waitTimeout.value else 60)
  {
    NumberWins("INCUS_MCP_LISTEN_PORT", env);
    NumberWins("INCUS_MCP_WAIT_TIMEOUT", env);
  }

  lemma NumberWins(name: string, env: Environment)
    ensures forall n :: name in env && ReadsAs(env[name], n) ==> EnvInt(env, name) == Some(n)
    ensures EnvInt(env, name).Some? ==> name in env && ReadsAs(env[name], EnvInt(env, name).value)
  {
    if name in env {
      forall n ensures Atoi(env[name]) == Some(n) <==> ReadsAs(env[name], n) {
        AtoiIff(env[name], n);
      }
    }
  }

  lemma TextIsPort(f: File, env: Environment, o: Options, dir: string)
    requires o.listenPort == 0 && "INCUS_MCP_LISTEN_PORT" in env
    ensures var n := Atoi(env["INCUS_MCP_LISTEN_PORT"]);
            n.Some? ==> Effective(f, env, o, dir).listenPort == n.value
  {
  }

  lemma NineThousandOne()
    ensures Decimal(9001) == "9001"
  {
    assert Decimal(9) == "9" && Decimal(90) == "90" && Decimal(900) == "900";
  }

  // In particular: the decimal form of a number, bare or with a sign.
  lemma DecimalsWin(f: File, env: Environment, o: Options, dir: string, n: nat)
    requires o.listenPort == 0 && "INCUS_MCP_LISTEN_PORT" in env
    ensures var (text, port) := (env["INCUS_MCP_LISTEN_PORT"], Effective(f, env, o, dir).listenPort);
      && (text == Decimal(n) || text == "+" + Decimal(n) ==> n <= 0x7FFF_FFFF_FFFF_FFFF ==> port == n)
      && (text == "-" + Decimal(n) ==> n <= 0x8000_0000_0000_0000 ==> port == 0 - n as int)
      && (text == "9001" ==> port == 9001)
  {
    TextIsPort(f, env, o, dir);
    AtoiReadsDecimals(n);
    AtoiReadsDecimals(9001);
    NineThousandOne();
  }

  // Whether a number is good, when the default is: the flag if there is one,
  // else the variable if it reads as a number, else the file.
  lemma GoodIff(name: string, env: Environment, flag: int, file: Option<int>, default: int, good: int -> bool)
    requires good(default)
    ensures good(Or(NonZero(flag), Or(EnvInt(env, name), Or(file, default)))) <==>
      && (flag != 0 ==> good(flag))
      && (flag == 0 ==> forall n | name in env && ReadsAs(env[name], n) :: good(n))
      && (flag == 0 && !(name in env && exists n :: ReadsAs(env[name], n)) && file.Some? ==> good(file.value))
  {
    NumberWins(name, env);
  }

  // Which starts are accepted: some layer has to set each path of the primary
  // credential; the admin credential may be left out, but not half of it,
  // whichever layers its halves come from; and what the layers set in the other
  // fields has to be in range, where the winner alone counts. What no layer
  // sets is never at fault.
  lemma AcceptedIff(f: File, env: Environment, o: Options, dir: string)
    ensures Acceptable(Effective(f, env, o, dir)) <==>
      && (o.cert != "" || ("INCUS_MCP_CERT_PATH" in env && env["INCUS_MCP_CERT_PATH"] != "")
          || (f.cert.Some? && f.cert.value != ""))
      && (o.key != "" || ("INCUS_MCP_KEY_PATH" in env && env["INCUS_MCP_KEY_PATH"] != "")
          || (f.key.Some? && f.key.value != ""))
      && ((o.adminCert != "" || ("INCUS_MCP_ADMIN_CERT_PATH" in env && env["INCUS_MCP_ADMIN_CERT_PATH"] != "")
            || (f.admin.Entry? && f.admin.cert.Some? && f.admin.cert.value != ""))
          <==>
          (o.adminKey != "" || ("INCUS_MCP_ADMIN_KEY_PATH" in env && env["INCUS_MCP_ADMIN_KEY_PATH"] != "")
            || (f.admin.Entry? && f.admin.key.Some? && f.admin.key.value != "")))
      && (var url := if o.url != "" then o.url
            else if "INCUS_MCP_TARGET_URL" in env && env["INCUS_MCP_TARGET_URL"] != "" then env["INCUS_MCP_TARGET_URL"]
            else if f.url.Some? then f.url.value else "http://";
          "http://" <= url || "https://" <= url)
      && (o.project == "" && !("INCUS_MCP_PROJECT" in env && env["INCUS_MCP_PROJECT"] != "") ==> f.project != Some(""))
      && (var port := "INCUS_MCP_LISTEN_PORT";
          && (o.listenPort != 0 ==> 1 <= o.listenPort <= 65535)
          && (o.listenPort == 0 ==>
               forall n | port in env && ReadsAs(env[port], n) :: 1 <= n <= 65535)
          && (o.listenPort == 0 && !(port in env && exists n :: ReadsAs(env[port], n)) && f.listenPort.Some? ==>
               1 <= f.listenPort.value <= 65535))
      && (var wait := "INCUS_MCP_WAIT_TIMEOUT";
          && (o.waitTimeout != 0 ==> 1 <= o.waitTimeout)
          && (o.waitTimeout == 0 ==>
               forall n | wait in env && ReadsAs(env[wait], n) :: 1 <= n)
          && (o.waitTimeout == 0 && !(wait in env && exists n :: ReadsAs(env[wait], n)) && f.waitTimeout.Some? ==>
               1 <= f.waitTimeout.value))
      && (f.inlineMax.Some? ==> f.inlineMax.value >= 1)
  {
    FirstLayerWins(f, env, o, dir);
    AdminHalvesWin(f, env, o, dir);
    GoodIff("INCUS_MCP_LISTEN_PORT", env, o.listenPort, f.listenPort, 8002, n => 1 <= n <= 65535);
    GoodIff("INCUS_MCP_WAIT_TIMEOUT", env, o.waitTimeout, f.waitTimeout, 60, n => 1 <= n);
  }

  // TargetCertificatePath, with filepath.Join as a parameter.
  function TargetCertificatePath(s: Settings, join: (string, string) -> string, defaultDir: string): string {
    if s.targetCert != "" then s.targetCert
    else join(if s.dir == "" then defaultDir else s.dir, "target.crt")
  }

  // Without an explicit path in any layer the pin is target.crt beside the
  // effective config file; otherwise it is exactly the winning path.
  lemma PinPathFollowsConfig(f: File, env: Environment, o: Options, dir: string, join: (string, string) -> string, defaultDir: string)
    requires dir != ""
    ensures var s := Effective(f, env, o, dir);
            TargetCertificatePath(s, join, defaultDir) ==
              if o.targetCert != "" then o.targetCert
              else if "INCUS_MCP_TARGET_CERT" in env && env["INCUS_MCP_TARGET_CERT"] != "" then env["INCUS_MCP_TARGET_CERT"]
              else if f.targetCert.Some? && f.targetCert.value != "" then f.targetCert.value
              else join(dir, "target.crt")
  {
    FirstLayerWins(f, env, o, dir);
  }
}
