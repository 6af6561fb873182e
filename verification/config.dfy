/** From the environment to the settings: key lookup, durations and the command line of the function. */
module Configuration {
  import opened ByteStreams

  // ---------------------------------------------------------------- mapEnv

  /** The position of the first `c`, or the length of the string. */
  function IndexOf(s: string, c: char): (i: nat)
    ensures i <= |s| && c !in s[..i] && (i < |s| ==> s[i] == c)
  {
    if s == [] || s[0] == c then 0 else 1 + IndexOf(s[1..], c)
  }

  /** An entry `key=value` with a non-empty key; the key ends at the first equals sign. */
  predicate WellFormed(entry: string) {
    0 < IndexOf(entry, '=') < |entry|
  }

  predicate Defines(entry: string, key: string, value: string) {
    key != "" && '=' !in key && entry == key + "=" + value
  }

  /** The value `key` has after all entries: that of the last entry that defines it. */
  function Lookup(env: seq<string>, key: string): Option<string> {
    if env == [] then None
    else
      var entry := env[|env| - 1];
      var i := IndexOf(entry, '=');
      if WellFormed(entry) && entry[..i] == key then Some(entry[i + 1..]) else Lookup(env[..|env| - 1], key)
  }

  /** `Lookup` finds exactly the last defining entry: nothing after it defines the key. */
  lemma {:induction false} LookupIsLast(env: seq<string>, key: string)
    ensures match Lookup(env, key)
            case Some(v) => exists n :: 0 <= n < |env| && Defines(env[n], key, v)
                              && forall k, v' :: n < k < |env| ==> !Defines(env[k], key, v')
            case None => forall k, v' :: 0 <= k < |env| ==> !Defines(env[k], key, v')
    decreases |env|
  {
    hide Defines, WellFormed, IndexOf;
    if env != [] {
      LookupIsLast(env[..|env| - 1], key);
      LastEntryDecides(env, key);
    }
  }

  /** The last entry settles the matter if it defines the key; otherwise the entries before it do. */
  lemma LastEntryDecides(env: seq<string>, key: string)
    requires env != []
    ensures var init, last := env[..|env| - 1], env[|env| - 1];
            if exists v :: Defines(last, key, v)
            then Lookup(env, key).Some? && Defines(last, key, Lookup(env, key).value)
            else Lookup(env, key) == Lookup(init, key)
  {
    var last := env[|env| - 1];
    DefinesIff(last, key);
    var i := IndexOf(last, '=');
    hide IndexOf;
    if WellFormed(last) && last[..i] == key {
      assert Defines(last, key, last[i + 1..]);
    }
  }

  lemma DefinesIff(entry: string, key: string)
    ensures forall v :: Defines(entry, key, v) <==>
              WellFormed(entry) && entry[..IndexOf(entry, '=')] == key && v == entry[IndexOf(entry, '=') + 1..]
  {
    var i := IndexOf(entry, '=');
    forall v | Defines(entry, key, v) ensures entry[..i] == key && v == entry[i + 1..] {
      assert entry == key + (['='] + v);
      KeyEnds(key, v);
    }
    if WellFormed(entry) {
      assert entry == entry[..i] + "=" + entry[i + 1..];
    }
  }

  lemma {:induction false} KeyEnds(key: string, v: string)
    requires '=' !in key
    ensures IndexOf(key + (['='] + v), '=') == |key|
    decreases |key|
  {
    if key == [] {
      assert key + (['='] + v) == ['='] + v;
    } else {
      assert (key + (['='] + v))[1..] == key[1..] + (['='] + v);
      KeyEnds(key[1..], v);
    }
  }

  /** The map holds, for every key, what `Lookup` finds. */
  ghost predicate Maps(env: seq<string>, mapped: map<string, string>) {
    forall key :: Lookup(env, key) == if key in mapped then Some(mapped[key]) else None
  }

  /** `mapEnv`: malformed entries are skipped, later ones win. */
  method MapEnv(env: seq<string>) returns (mapped: map<string, string>)
    ensures Maps(env, mapped)
  {
    mapped := map[];
    for n := 0 to |env|
      invariant Maps(env[..n], mapped)
    {
      assert env[..n + 1][..n] == env[..n];
      var sep := IndexOf(env[n], '=');
      if 0 < sep < |env[n]| {
        mapped := mapped[env[n][..sep] := env[n][sep + 1..]];
      }
    }
    assert env[..|env|] == env;
  }

  // ---------------------------------------------------------------- durations

  const SECOND := 1_000_000_000
  const TWO_63 := 0x8000_0000_0000_0000
  const TWO_64 := 0x1_0000_0000_0000_0000

  /** Two's complement wrap-around of 64-bit arithmetic. */
  function Wrap64(x: int): (r: int)
    ensures -TWO_63 <= r < TWO_63 && (r - x) % TWO_64 == 0
  {
    (x + TWO_63) % TWO_64 - TWO_63
  }

  /** The library functions the settings depend on: `strconv.Atoi`, `time.ParseDuration`, the mode table. */
  datatype Library = Library(atoi: string -> Option<int>, parseDuration: string -> Option<int>,
                             modeOf: string -> Mode)

  /** `parseIntOrDurationValue`, in nanoseconds. */
  function ParseIntOrDuration(lib: Library, val: string, fallback: int): int {
    if val != [] && lib.atoi(val).Some? && lib.atoi(val).value >= 0 then Wrap64(lib.atoi(val).value * SECOND)
    else if lib.parseDuration(val).Some? then lib.parseDuration(val).value
    else fallback
  }

  /** What a setting means: whole seconds, as far as they fit 64 bits; else, if it is not a number or a negative one,
      what the duration format makes of it; else the default. */
  ghost predicate MeansDuration(lib: Library, setting: Option<string>, fallback: int, d: int) {
    match setting
    case None => d == fallback
    case Some(val) =>
      var n, parsed := lib.atoi(val), lib.parseDuration(val);
      var whole := val != "" && n.Some? && n.value >= 0;
      && (whole && n.value <= 9223372036 ==> d == n.value * 1_000_000_000)
      && (whole ==> -0x8000_0000_0000_0000 <= d < 0x8000_0000_0000_0000
                    && (d - n.value * 1_000_000_000) % 0x1_0000_0000_0000_0000 == 0)
      && (!whole && parsed.Some? ==> d == parsed.value)
      && (!whole && parsed.None? ==> d == fallback)
  }

  lemma DurationMeans(lib: Library, val: string, fallback: int)
    ensures MeansDuration(lib, Some(val), fallback, ParseIntOrDuration(lib, val, fallback))
  {
  }

  /** A whole number of seconds is taken at its word exactly up to 9223372036 seconds. */
  lemma SecondsAreExactIff(lib: Library, val: string, fallback: int)
    requires val != [] && lib.atoi(val).Some? && 0 <= lib.atoi(val).value < TWO_63
    ensures ParseIntOrDuration(lib, val, fallback) == lib.atoi(val).value * SECOND
            <==> lib.atoi(val).value <= 9223372036
  {
  }

  // ---------------------------------------------------------------- New

  /** `Unknown` is the constant 0 that stands for every unknown name. */
  datatype Mode = Unknown | Streaming | Serializing | AfterBurn | HttpProxy | Static | Inproc

  datatype Settings = Settings(functionProcess: string, writeTimeout: int, healthcheckInterval: int,
                               logBufferSize: int, mode: Mode)

  datatype ConfigError = InvalidLogBufferSize | ZeroWriteTimeout | NoFunctionProcess

  const DEFAULT_TIMEOUT := 30 * SECOND
  const MAX_SCAN_TOKEN_SIZE := 64 * 1024

  function Duration(lib: Library, env: seq<string>, key: string, fallback: int): int {
    match Lookup(env, key)
    case Some(v) => ParseIntOrDuration(lib, v, fallback)
    case None => fallback
  }

  /** `function_process` overrides `fprocess`. */
  function FunctionProcess(env: seq<string>): string {
    match Lookup(env, "function_process")
    case Some(v) => v
    case None => match Lookup(env, "fprocess") case Some(v) => v case None => ""
  }

  /** `getDuration`. */
  method GetDuration(lib: Library, ghost env: seq<string>, envMap: map<string, string>, key: string, fallback: int)
    returns (d: int)
    requires Maps(env, envMap)
    ensures d == Duration(lib, env, key, fallback)
    ensures MeansDuration(lib, Lookup(env, key), fallback, d)
  {
    assert Lookup(env, key) == if key in envMap then Some(envMap[key]) else None;
    if key in envMap {
      DurationMeans(lib, envMap[key], fallback);
      return ParseIntOrDuration(lib, envMap[key], fallback);
    }
    return fallback;
  }

  /** One key of the map that was made from `env`. */
  method Get(ghost env: seq<string>, envMap: map<string, string>, key: string) returns (v: Option<string>)
    requires Maps(env, envMap)
    ensures v == Lookup(env, key)
  {
    v := if key in envMap then Some(envMap[key]) else None;
  }

  /** `New`, as far as the modelled settings go. */
  method New(env: seq<string>, lib: Library) returns (r: Result<Settings, ConfigError>)
    ensures var size := Lookup(env, "log_buffer_size");
            var mode := Lookup(env, "mode");
            var badSize := size.Some? && lib.atoi(size.value).None?;
            var noTimeout := Duration(lib, env, "write_timeout", DEFAULT_TIMEOUT) == 0;
            var needsProcess := mode.None? || mode.value == "" || lib.modeOf(mode.value) !in {Static, Inproc};
            && (r == Failure(InvalidLogBufferSize) <==> badSize)
            && (r == Failure(ZeroWriteTimeout) <==> !badSize && noTimeout)
            && (r == Failure(NoFunctionProcess) <==>
                  !badSize && !noTimeout && needsProcess && FunctionProcess(env) == "")
    ensures r.Success? ==>
              && r.value.functionProcess == FunctionProcess(env)
              && r.value.functionProcess == (match Lookup(env, "function_process")
                                             case Some(command) => command
                                             case None => match Lookup(env, "fprocess")
                                               case Some(command) => command
                                               case None => "")
              && MeansDuration(lib, Lookup(env, "write_timeout"), 30_000_000_000, r.value.writeTimeout)
              && MeansDuration(lib, Lookup(env, "healthcheck_interval"), r.value.writeTimeout,
                               r.value.healthcheckInterval)
              && r.value.writeTimeout == Duration(lib, env, "write_timeout", DEFAULT_TIMEOUT) != 0
              && r.value.healthcheckInterval
                 == Duration(lib, env, "healthcheck_interval", r.value.writeTimeout)
              && r.value.logBufferSize == (match Lookup(env, "log_buffer_size")
                                           case None => 65536
                                           case Some(text) => lib.atoi(text).value)
              && r.value.mode == (match Lookup(env, "mode")
                                  case None => Streaming
                                  case Some(name) => if name == "" then Streaming else lib.modeOf(name))
              && var (command, arguments) := Process(r.value);
              Join([command] + arguments) == FunctionProcess(env)
  {
    hide Lookup, ParseIntOrDuration, Process, Join, Maps, Duration;
    var envMap := MapEnv(env);
    var functionProcess := "";
    var val := Get(env, envMap, "fprocess");
    if val.Some? {
      functionProcess := val.value;
    }
    val := Get(env, envMap, "function_process");
    if val.Some? {
      functionProcess := val.value;
    }
    var writeTimeout := GetDuration(lib, env, envMap, "write_timeout", DEFAULT_TIMEOUT);
    var healthcheckInterval := GetDuration(lib, env, envMap, "healthcheck_interval", writeTimeout);
    var logBufferSize := MAX_SCAN_TOKEN_SIZE;
    val := Get(env, envMap, "log_buffer_size");
    if val.Some? {
      var parsed := lib.atoi(val.value);
      if parsed.None? {
        return Failure(InvalidLogBufferSize);
      }
      logBufferSize := parsed.value;
    }
    var mode := Streaming;
    val := Get(env, envMap, "mode");
    if val.Some? && val.value != "" {
      mode := lib.modeOf(val.value);
    }
    if writeTimeout == 0 {
      return Failure(ZeroWriteTimeout);
    }
    if functionProcess == "" && !mode.Static? && !mode.Inproc? {
      return Failure(NoFunctionProcess);
    }
    r := Success(Settings(functionProcess, writeTimeout, healthcheckInterval, logBufferSize, mode));
    ProcessRoundTrip(r.value);
  }

  // ---------------------------------------------------------------- Process

  /** `strings.Split` at single spaces: never empty. */
  function Split(s: string): (parts: seq<string>)
    ensures |parts| > 0
  {
    var i := IndexOf(s, ' ');
    if i < |s| then [s[..i]] + Split(s[i + 1..]) else [s]
  }

  function Join(parts: seq<string>): string
    requires |parts| > 0
  {
    if |parts| == 1 then parts[0] else parts[0] + " " + Join(parts[1..])
  }

  /** The command and its arguments. */
  function Process(c: Settings): (string, seq<string>) {
    var parts := Split(c.functionProcess);
    if |parts| > 1 then (parts[0], parts[1..]) else (parts[0], [])
  }

  /** Joining command and arguments with single spaces gives the configured string back, and no part has a
      space in it. */
  lemma ProcessRoundTrip(c: Settings)
    ensures var (command, arguments) := Process(c);
            && Join([command] + arguments) == c.functionProcess
            && ' ' !in command && forall part :: part in arguments ==> ' ' !in part
  {
    SplitRoundTrip(c.functionProcess);
    var parts := Split(c.functionProcess);
    assert parts == [parts[0]] + (if |parts| > 1 then parts[1..] else []);
  }

  lemma {:induction false} SplitRoundTrip(s: string)
    ensures Join(Split(s)) == s
    ensures forall part :: part in Split(s) ==> ' ' !in part
    decreases |s|
  {
    var i := IndexOf(s, ' ');
    if i < |s| {
      SplitRoundTrip(s[i + 1..]);
      CutAt(s, i);
      hide IndexOf;
      var rest := Split(s[i + 1..]);
      assert Split(s) == [s[..i]] + rest && Split(s)[1..] == rest;
      assert Join(Split(s)) == s[..i] + " " + Join(rest);
    } else {
      assert s[..i] == s;
    }
  }

  /** Conversely, a command line put together from space-free parts is taken apart into the same parts. */
  lemma {:induction false} JoinRoundTrip(parts: seq<string>)
    requires |parts| > 0 && forall part :: part in parts ==> ' ' !in part
    ensures Split(Join(parts)) == parts
    decreases |parts|
  {
    if |parts| == 1 {
      SpaceAt(parts[0], "");
      assert parts[0] + "" == parts[0];
    } else {
      hide Split;
      JoinRoundTrip(parts[1..]);
      SplitFirst(parts[0], Join(parts[1..]));
      assert parts == [parts[0]] + parts[1..];
    }
  }

  lemma SplitFirst(word: string, rest: string)
    requires ' ' !in word
    ensures Split(word + " " + rest) == [word] + Split(rest)
  {
    var s := word + (" " + rest);
    SpaceAt(word, " " + rest);
    hide IndexOf;
    assert s == word + " " + rest;
    assert s[..|word|] == word;
    assert s[|word| + 1..] == rest;
  }

  lemma {:induction false} SpaceAt(word: string, more: string)
    requires ' ' !in word && (more != [] ==> more[0] == ' ')
    ensures IndexOf(word + more, ' ') == |word|
    decreases |word|
  {
    if word == [] {
      assert word + more == more;
    } else {
      SpaceAt(word[1..], more);
      assert (word + more)[1..] == word[1..] + more;
    }
  }
}
