/**
 * The configuration layer (internal/config/config.go): the digit loop of
 * parseInt, the fallback chains that pick a setting from koanf, from the
 * environment or from a default, the defaults Load uses, and the DSN and
 * address renderings.
 *
 * The environment and koanf are maps; a key that is absent reads as the
 * zero value, as os.Getenv, k.String, k.Int and k.Duration do.
 */
module Config {

  /** Durations are Go time.Duration values: whole nanoseconds. */
  const Second: int := 1_000_000_000
  const Minute: int := 60 * Second

  datatype Database = Database(
    Host: string,
    Port: string,
    User: string,
    Password: string,
    Name: string,
    SSLMode: string,
    MaxOpenConns: int,
    MaxIdleConns: int,
    ConnMaxLifetime: int,
    ConnMaxIdleTime: int,
    MaxTenantPools: int,
    PoolIdleTimeout: int)

  datatype Redis = Redis(Host: string, Port: string, Password: string, DB: int)

  datatype Configuration = Configuration(Database: Database, Redis: Redis)

  /**
   * What Load reads. `koanfStrings`, `koanfInts` and `koanfDurations` are what
   * k.String, k.Int and k.Duration answer for a key (koanf's own conversions
   * are not modelled); `parsedDurations` maps each text that
   * time.ParseDuration accepts to the duration it denotes.
   */
  datatype Sources = Sources(
    env: map<string, string>,
    koanfStrings: map<string, string>,
    koanfInts: map<string, int>,
    koanfDurations: map<string, int>,
    parsedDurations: map<string, int>)

  const NoSources: Sources := Sources(map[], map[], map[], map[], map[])

  // ---------------------------------------------------------------------
  // parseInt

  predicate IsDigit(c: char) {
    '0' <= c <= '9'
  }

  predicate AllDigits(s: string) {
    forall i :: 0 <= i < |s| ==> IsDigit(s[i])
  }

  function DigitValue(c: char): (d: int)
    requires IsDigit(c)
    ensures 0 <= d < 10
  {
    c as int - '0' as int
  }

  function DigitChar(d: int): (c: char)
    requires 0 <= d < 10
    ensures IsDigit(c) && DigitValue(c) == d
  {
    ('0' as int + d) as char
  }

  /** The decimal value of a digit string, read left to right. */
  function DecimalValue(s: string): (n: int)
    requires AllDigits(s)
    ensures n >= 0
    decreases |s|
  {
    if s == [] then 0 else DecimalValue(s[..|s| - 1]) * 10 + DigitValue(s[|s| - 1])
  }

  /** What parseInt answers: the decimal value of an all-digit string, else 0. */
  function ParseIntValue(s: string): int {
    if AllDigits(s) then DecimalValue(s) else 0
  }

  /** parseInt: accumulates result*10 + digit and gives up with 0 at the first non-digit. */
  method ParseInt(s: string) returns (result: int)
    ensures result == ParseIntValue(s)
    ensures result >= 0
  {
    result := 0;
    for i := 0 to |s|
      invariant AllDigits(s[..i])
      invariant result == DecimalValue(s[..i])
    {
      if IsDigit(s[i]) {
        assert s[..i + 1][..i] == s[..i];
        result := result * 10 + DigitValue(s[i]);
      } else {
        assert !IsDigit(s[i]);
        return 0;
      }
    }
    assert s[..|s|] == s;
  }

  /** fmt.Sprintf("%d", n) for n >= 0: the shortest decimal rendering. */
  function DecimalString(n: nat): (s: string)
    ensures |s| >= 1 && AllDigits(s)
    decreases n
  {
    if n < 10 then [DigitChar(n)] else DecimalString(n / 10) + [DigitChar(n % 10)]
  }

  /** fmt.Sprintf("%d", n) for any int. */
  function FormatInt(n: int): string {
    if n < 0 then "-" + DecimalString(-n) else DecimalString(n)
  }

  /** Reading back what DecimalString writes gives the number. */
  lemma {:induction false} DecimalRoundTrip(n: nat)
    ensures DecimalValue(DecimalString(n)) == n
  {
    if n >= 10 {
      var s := DecimalString(n);
      assert s[..|s| - 1] == DecimalString(n / 10);
      DecimalRoundTrip(n / 10);
    }
  }

  /** parseInt inverts %d on the non-negative numbers and rejects the minus sign. */
  lemma ParseIntOfFormatInt(n: int)
    ensures n >= 0 ==> ParseIntValue(FormatInt(n)) == n
    ensures n < 0 ==> ParseIntValue(FormatInt(n)) == 0
  {
    if n >= 0 {
      DecimalRoundTrip(n);
    } else {
      assert !IsDigit(FormatInt(n)[0]);
    }
  }

  /** parseInt answers 0 on the empty string and on any string with a non-digit. */
  lemma ParseIntRejects(s: string)
    requires s == [] || exists i :: 0 <= i < |s| && !IsDigit(s[i])
    ensures ParseIntValue(s) == 0
  {
  }

  // ---------------------------------------------------------------------
  // Fallback chains

  /** os.Getenv: an unset variable reads as the empty string. */
  function Getenv(env: map<string, string>, key: string): string {
    if key in env then env[key] else ""
  }

  function KoanfString(src: Sources, key: string): string {
    if key in src.koanfStrings then src.koanfStrings[key] else ""
  }

  function KoanfInt(src: Sources, key: string): int {
    if key in src.koanfInts then src.koanfInts[key] else 0
  }

  function KoanfDuration(src: Sources, key: string): int {
    if key in src.koanfDurations then src.koanfDurations[key] else 0
  }

  /** getEnv: the variable's value when it is non-empty, else the default. */
  function GetEnv(env: map<string, string>, key: string, defaultValue: string): (r: string)
    ensures r == Getenv(env, key) <==> Getenv(env, key) != "" || defaultValue == ""
    ensures r != Getenv(env, key) ==> r == defaultValue
    ensures r == "" ==> defaultValue == ""
  {
    var value := Getenv(env, key);
    if value != "" then value else defaultValue
  }

  /** getEnvAsInt: the parsed value when the variable is set and parses to non-zero, else the default. */
  function GetEnvAsInt(env: map<string, string>, key: string, defaultValue: int): (r: int)
    ensures ParseIntValue(Getenv(env, key)) != 0 ==> r == ParseIntValue(Getenv(env, key))
    ensures ParseIntValue(Getenv(env, key)) == 0 ==> r == defaultValue
    ensures r == defaultValue || r > 0
  {
    var value := Getenv(env, key);
    if value != "" && ParseIntValue(value) != 0 then ParseIntValue(value) else defaultValue
  }

  /** "", "0", "00", "abc", "-5": every text parseInt maps to 0 yields the default. */
  lemma GetEnvAsIntFallsBack(env: map<string, string>, key: string, defaultValue: int)
    requires ParseIntValue(Getenv(env, key)) == 0
    ensures GetEnvAsInt(env, key, defaultValue) == defaultValue
  {
  }

  /** A variable holding the %d rendering of a positive number yields that number. */
  lemma GetEnvAsIntReadsDecimal(env: map<string, string>, key: string, n: int, defaultValue: int)
    requires n > 0
    ensures GetEnvAsInt(env[key := FormatInt(n)], key, defaultValue) == n
  {
    ParseIntOfFormatInt(n);
  }

  /** getEnvAsDuration: the parsed duration when the variable is set and parses, else the default. */
  function GetEnvAsDuration(src: Sources, key: string, defaultValue: int): (r: int)
    ensures Getenv(src.env, key) in src.parsedDurations && Getenv(src.env, key) != "" ==>
              r == src.parsedDurations[Getenv(src.env, key)]
    ensures Getenv(src.env, key) !in src.parsedDurations || Getenv(src.env, key) == "" ==> r == defaultValue
  {
    var value := Getenv(src.env, key);
    if value != "" && value in src.parsedDurations then src.parsedDurations[value] else defaultValue
  }

  /** getEnvWithKoanf: a non-empty koanf value, else getEnv. */
  function GetEnvWithKoanf(src: Sources, envKey: string, koanfKey: string, defaultValue: string): (r: string)
    ensures r == KoanfString(src, koanfKey) || r == Getenv(src.env, envKey) || r == defaultValue
    ensures r != KoanfString(src, koanfKey) ==> KoanfString(src, koanfKey) == ""
    ensures r == "" ==> defaultValue == ""
  {
    var value := KoanfString(src, koanfKey);
    if value != "" then value else GetEnv(src.env, envKey, defaultValue)
  }

  /** getIntWithKoanf: a non-zero koanf value, else getEnvAsInt. */
  function GetIntWithKoanf(src: Sources, envKey: string, koanfKey: string, defaultValue: int): (r: int)
    ensures r == KoanfInt(src, koanfKey) || r == ParseIntValue(Getenv(src.env, envKey)) || r == defaultValue
    ensures r != KoanfInt(src, koanfKey) ==> KoanfInt(src, koanfKey) == 0
    ensures r == 0 ==> defaultValue == 0
  {
    var value := KoanfInt(src, koanfKey);
    if value != 0 then value else GetEnvAsInt(src.env, envKey, defaultValue)
  }

  /** getDurationWithKoanf: a non-zero koanf duration, else getEnvAsDuration. */
  function GetDurationWithKoanf(src: Sources, envKey: string, koanfKey: string, defaultValue: int): (r: int)
    ensures r == KoanfDuration(src, koanfKey) || r == defaultValue ||
            (Getenv(src.env, envKey) in src.parsedDurations && r == src.parsedDurations[Getenv(src.env, envKey)])
    ensures r != KoanfDuration(src, koanfKey) ==> KoanfDuration(src, koanfKey) == 0
  {
    var value := KoanfDuration(src, koanfKey);
    if value != 0 then value else GetEnvAsDuration(src, envKey, defaultValue)
  }

  /** The string chain answers, in order of preference, koanf, the environment, the default. */
  lemma StringChainOrder(src: Sources, envKey: string, koanfKey: string, defaultValue: string)
    ensures KoanfString(src, koanfKey) != "" ==>
              GetEnvWithKoanf(src, envKey, koanfKey, defaultValue) == KoanfString(src, koanfKey)
    ensures KoanfString(src, koanfKey) == "" && Getenv(src.env, envKey) != "" ==>
              GetEnvWithKoanf(src, envKey, koanfKey, defaultValue) == Getenv(src.env, envKey)
    ensures KoanfString(src, koanfKey) == "" && Getenv(src.env, envKey) == "" ==>
              GetEnvWithKoanf(src, envKey, koanfKey, defaultValue) == defaultValue
    ensures GetEnvWithKoanf(src, envKey, koanfKey, defaultValue) == "" ==> defaultValue == ""
  {
  }

  /** The integer chain never answers 0 unless the default is 0. */
  lemma IntChainOrder(src: Sources, envKey: string, koanfKey: string, defaultValue: int)
    ensures KoanfInt(src, koanfKey) != 0 ==>
              GetIntWithKoanf(src, envKey, koanfKey, defaultValue) == KoanfInt(src, koanfKey)
    ensures KoanfInt(src, koanfKey) == 0 ==>
              GetIntWithKoanf(src, envKey, koanfKey, defaultValue) == GetEnvAsInt(src.env, envKey, defaultValue)
    ensures GetIntWithKoanf(src, envKey, koanfKey, defaultValue) == 0 ==> defaultValue == 0
  {
  }

  /** The duration chain: a non-zero koanf duration, else the parsed variable, else the default. */
  lemma DurationChainOrder(src: Sources, envKey: string, koanfKey: string, defaultValue: int)
    ensures KoanfDuration(src, koanfKey) != 0 ==>
              GetDurationWithKoanf(src, envKey, koanfKey, defaultValue) == KoanfDuration(src, koanfKey)
    ensures KoanfDuration(src, koanfKey) == 0 ==>
              GetDurationWithKoanf(src, envKey, koanfKey, defaultValue) == GetEnvAsDuration(src, envKey, defaultValue)
  {
  }

  // ---------------------------------------------------------------------
  // Load

  /**
   * Load, from the point where the sources have been read. Every setting
   * whose default is non-empty or non-zero ends up non-empty or non-zero.
   */
  function Load(src: Sources): (c: Configuration)
    ensures c.Database.Host != "" && c.Database.Port != "" && c.Database.User != ""
    ensures c.Database.Name != "" && c.Database.SSLMode != ""
    ensures c.Database.MaxOpenConns != 0 && c.Database.MaxIdleConns != 0 && c.Database.MaxTenantPools != 0
    ensures c.Redis.Host != "" && c.Redis.Port != ""
  {
    Configuration(
      Database(
        Host := GetEnvWithKoanf(src, "DB_HOST", "DB_HOST", "localhost"),
        Port := GetEnvWithKoanf(src, "DB_PORT", "DB_PORT", "5432"),
        User := GetEnvWithKoanf(src, "DB_USER", "DB_USER", "postgres"),
        Password := GetEnvWithKoanf(src, "DB_PASSWORD", "DB_PASSWORD", ""),
        Name := GetEnvWithKoanf(src, "DB_NAME", "DB_NAME", "openvdo"),
        SSLMode := GetEnvWithKoanf(src, "DB_SSLMODE", "DB_SSLMODE", "disable"),
        MaxOpenConns := GetIntWithKoanf(src, "DB_MAX_OPEN_CONNS", "DB_MAX_OPEN_CONNS", 100),
        MaxIdleConns := GetIntWithKoanf(src, "DB_MAX_IDLE_CONNS", "DB_MAX_IDLE_CONNS", 10),
        ConnMaxLifetime := GetDurationWithKoanf(src, "DB_CONN_MAX_LIFETIME", "DB_CONN_MAX_LIFETIME", 5 * Minute),
        ConnMaxIdleTime := GetDurationWithKoanf(src, "DB_CONN_MAX_IDLE_TIME", "DB_CONN_MAX_IDLE_TIME", 30 * Second),
        MaxTenantPools := GetIntWithKoanf(src, "DB_MAX_TENANT_POOLS", "DB_MAX_TENANT_POOLS", 50),
        PoolIdleTimeout := GetDurationWithKoanf(src, "DB_POOL_IDLE_TIMEOUT", "DB_POOL_IDLE_TIMEOUT", 10 * Minute)),
      Redis(
        Host := GetEnvWithKoanf(src, "REDIS_HOST", "REDIS_HOST", "localhost"),
        Port := GetEnvWithKoanf(src, "REDIS_PORT", "REDIS_PORT", "6379"),
        Password := GetEnvWithKoanf(src, "REDIS_PASSWORD", "REDIS_PASSWORD", ""),
        DB := GetIntWithKoanf(src, "REDIS_DB", "REDIS_DB", 0)))
  }

  /** With nothing configured, Load yields the documented defaults. */
  lemma LoadDefaults()
    ensures var c := Load(NoSources);
      && c.Database.MaxOpenConns == 100 && c.Database.MaxIdleConns == 10
      && c.Database.MaxTenantPools == 50
      && c.Database.ConnMaxLifetime == 5 * Minute && c.Database.ConnMaxIdleTime == 30 * Second
      && c.Database.PoolIdleTimeout == 10 * Minute
      && c.Database.Host == "localhost" && c.Database.Port == "5432"
      && c.Database.User == "postgres" && c.Database.Password == "" && c.Database.Name == "openvdo"
      && c.Database.SSLMode == "disable"
      && c.Redis == Redis("localhost", "6379", "", 0)
  {
  }

  /**
   * Load copies every environment variable into koanf before reading, so
   * k.Int sees the same DB_MAX_TENANT_POOLS text as os.Getenv. When that
   * text is the %d rendering of a positive n and koanf converts it to n,
   * the pool cap is n, and the environment fallback alone would give n too.
   */
  lemma LoadReadsTenantPoolCap(src: Sources, n: int)
    requires n > 0
    requires Getenv(src.env, "DB_MAX_TENANT_POOLS") == FormatInt(n)
    requires KoanfInt(src, "DB_MAX_TENANT_POOLS") == n
    ensures Load(src).Database.MaxTenantPools == n
    ensures GetEnvAsInt(src.env, "DB_MAX_TENANT_POOLS", 50) == n
  {
    ParseIntOfFormatInt(n);
  }

  // ---------------------------------------------------------------------
  // DSN and Address

  /** The fields of `s` between occurrences of `sep`, as Go's strings.Split. */
  function SplitOn(s: string, sep: char): (parts: seq<string>)
    ensures |parts| >= 1
    decreases |s|
  {
    if s == [] then [""]
    else
      var rest := SplitOn(s[1..], sep);
      if s[0] == sep then [""] + rest else [[s[0]] + rest[0]] + rest[1..]
  }

  /** The parts with `sep` between each neighbouring pair, as Go's strings.Join. */
  function JoinWith(parts: seq<string>, sep: char): string
    requires |parts| >= 1
    decreases |parts|
  {
    if |parts| == 1 then parts[0] else parts[0] + [sep] + JoinWith(parts[1..], sep)
  }

  /** A separator-free prefix followed by a separator is exactly the first field. */
  lemma {:induction false} SplitCons(a: string, rest: string, sep: char)
    requires sep !in a
    ensures SplitOn(a + [sep] + rest, sep) == [a] + SplitOn(rest, sep)
    decreases |a|
  {
    if a == [] {
      assert a + [sep] + rest == [sep] + rest;
      assert ([sep] + rest)[1..] == rest;
    } else {
      var s := a + [sep] + rest;
      assert s[0] == a[0];
      assert s[1..] == a[1..] + [sep] + rest;
      SplitCons(a[1..], rest, sep);
      assert [a[0]] + a[1..] == a;
    }
  }

  /** A separator-free string is a single field. */
  lemma {:induction false} SplitPlain(a: string, sep: char)
    requires sep !in a
    ensures SplitOn(a, sep) == [a]
    decreases |a|
  {
    if a != [] {
      SplitPlain(a[1..], sep);
      assert [a[0]] + a[1..] == a;
    }
  }

  /** Splitting a join of separator-free parts gives the parts back. */
  lemma {:induction false} SplitJoin(parts: seq<string>, sep: char)
    requires |parts| >= 1
    requires forall i :: 0 <= i < |parts| ==> sep !in parts[i]
    ensures SplitOn(JoinWith(parts, sep), sep) == parts
    decreases |parts|
  {
    if |parts| == 1 {
      SplitPlain(parts[0], sep);
    } else {
      SplitJoin(parts[1..], sep);
      SplitCons(parts[0], JoinWith(parts[1..], sep), sep);
      assert parts == [parts[0]] + parts[1..];
    }
  }

  /** The key=value settings of a DSN, in the order the format string lists them. */
  function DsnFields(d: Database): seq<string> {
    ["host=" + d.Host, "port=" + d.Port, "user=" + d.User, "password=" + d.Password,
     "dbname=" + d.Name, "sslmode=" + d.SSLMode]
  }

  /**
   * DSN: the format "host=%s port=%s user=%s password=%s dbname=%s sslmode=%s",
   * that is, the six settings joined with single spaces.
   */
  function DSN(d: Database): (s: string)
    ensures s == ("host=" + d.Host) + " " + ("port=" + d.Port) + " " + ("user=" + d.User) + " " +
                 ("password=" + d.Password) + " " + ("dbname=" + d.Name) + " " + ("sslmode=" + d.SSLMode)
  {
    JoinSix("host=" + d.Host, "port=" + d.Port, "user=" + d.User, "password=" + d.Password,
            "dbname=" + d.Name, "sslmode=" + d.SSLMode);
    JoinWith(DsnFields(d), ' ')
  }

  predicate NoSpaces(s: string) {
    ' ' !in s
  }

  lemma ConcatNoSpaces(a: string, b: string)
    requires NoSpaces(a) && NoSpaces(b)
    ensures NoSpaces(a + b)
  {
    assert forall i :: 0 <= i < |a + b| ==> (a + b)[i] == if i < |a| then a[i] else b[i - |a|];
  }

  /** Six parts joined with single spaces, unfolded one part at a time. */
  lemma JoinSix(a: string, b: string, c: string, d: string, e: string, f: string)
    ensures JoinWith([a, b, c, d, e, f], ' ') == a + " " + b + " " + c + " " + d + " " + e + " " + f
  {
    var p := [a, b, c, d, e, f];
    assert p[1..] == [b, c, d, e, f];
    assert [b, c, d, e, f][1..] == [c, d, e, f];
    assert [c, d, e, f][1..] == [d, e, f];
    assert [d, e, f][1..] == [e, f];
    assert [e, f][1..] == [f];
    assert JoinWith([f], ' ') == f;
    var j4 := JoinWith([e, f], ' ');
    assert j4 == e + " " + f;
    var j3 := JoinWith([d, e, f], ' ');
    assert j3 == d + " " + j4;
    var j2 := JoinWith([c, d, e, f], ' ');
    assert j2 == c + " " + j3;
    var j1 := JoinWith([b, c, d, e, f], ' ');
    assert j1 == b + " " + j2;
    assert JoinWith(p, ' ') == a + " " + j1;
  }

  /** When no setting contains a space, the DSN splits back into its six fields, in order. */
  lemma DsnRoundTrip(d: Database)
    requires NoSpaces(d.Host) && NoSpaces(d.Port) && NoSpaces(d.User) && NoSpaces(d.Password)
    requires NoSpaces(d.Name) && NoSpaces(d.SSLMode)
    ensures SplitOn(DSN(d), ' ') == DsnFields(d)
  {
    ConcatNoSpaces("host=", d.Host);
    ConcatNoSpaces("port=", d.Port);
    ConcatNoSpaces("user=", d.User);
    ConcatNoSpaces("password=", d.Password);
    ConcatNoSpaces("dbname=", d.Name);
    ConcatNoSpaces("sslmode=", d.SSLMode);
    SplitJoin(DsnFields(d), ' ');
  }

  /** Address: host and port separated by a colon. */
  function Address(r: Redis): (a: string)
    ensures |a| == |r.Host| + 1 + |r.Port|
    ensures a[..|r.Host|] == r.Host && a[|r.Host|] == ':' && a[|r.Host| + 1..] == r.Port
  {
    r.Host + ":" + r.Port
  }

  /** When neither host nor port holds a colon, the address splits back into host and port. */
  lemma AddressRoundTrip(r: Redis)
    requires ':' !in r.Host && ':' !in r.Port
    ensures SplitOn(Address(r), ':') == [r.Host, r.Port]
  {
    assert Address(r) == JoinWith([r.Host, r.Port], ':');
    SplitJoin([r.Host, r.Port], ':');
  }
}
