/**
 * Assembly of the runner invocation (src/commands.ts): the shell command
 * sent to the terminal by `runTest`, the argument list and launch record
 * handed to the debugger by `debugTest`, and the parse of the
 * environment-variable setting into a key/value object.
 *
 * The settings store, the platform and `quoteTestName` come in as
 * parameters. src/commands.ts:9 imports `quoteTestName` from
 * src/extension.ts, which does not define it, so the model takes it as given.
 */
module Commands {
  import opened Wrappers
  import Text
  import Constants

  /** The settings `runTest` and `debugTest` read; "" stands for an unset string. */
  datatype Config = Config(
    jestPath: string,
    jestConfigPath: string,
    jestCliOptions: seq<string>,
    environmentVariables: string)

  /** What the host supplies: `process.platform` and the Windows debug default. */
  datatype Host = Host(platform: string, defaultJestDebugPathWindows: string)

  /**
   * The quoting mode handed to `quoteTestName`; `FromSettings` is the call
   * without a mode argument, which defers to the quoting setting.
   */
  datatype QuoteMode = FromSettings | QuoteNone | QuoteAuto | QuoteSingle | QuoteDouble

  /** `quoteTestName(value, mode)`, taken as given. */
  type Quoter = (string, QuoteMode) -> string

  /** A JavaScript object from names to strings or `undefined`. */
  type EnvMap = map<string, Option<string>>

  /** The name whose assignment on a plain object goes to the prototype setter. */
  const ProtoKey: string := "__proto__"

  // ---------------------------------------------------------------------
  // convertEnvVariablesToObj
  // ---------------------------------------------------------------------

  /** `parts.filter(v => !!v)`: the non-empty parts in order. */
  function NonEmpty(parts: seq<string>): (r: seq<string>)
    ensures forall i :: 0 <= i < |r| ==> r[i] != ""
    ensures forall x :: x in r <==> x in parts && x != ""
  {
    if |parts| == 0 then []
    else (if parts[0] == "" then [] else [parts[0]]) + NonEmpty(parts[1..])
  }

  /**
   * The filter drops every empty part and keeps each non-empty value
   * exactly as often as it occurs.
   */
  lemma {:induction false} NonEmptyCounts(parts: seq<string>)
    ensures multiset(NonEmpty(parts)) == multiset(parts)["" := 0]
  {
    if |parts| > 0 {
      assert parts == [parts[0]] + parts[1..];
      NonEmptyCounts(parts[1..]);
    }
  }

  /** The space-separated, non-empty tokens of the environment string. */
  function Tokens(env: string): (ts: seq<string>)
    ensures forall i :: 0 <= i < |ts| ==> ts[i] != "" && ' ' !in ts[i]
  {
    NonEmpty(Text.Split(env, ' '))
  }

  /**
   * The filter keeps order and repeats: filtering a concatenation filters
   * each side, so the kept parts appear as they did in the input.
   */
  lemma {:induction false} NonEmptyAppend(a: seq<string>, b: seq<string>)
    ensures NonEmpty(a + b) == NonEmpty(a) + NonEmpty(b)
  {
    if |a| == 0 {
      assert a + b == b;
    } else {
      assert (a + b)[0] == a[0];
      assert (a + b)[1..] == a[1..] + b;
      NonEmptyAppend(a[1..], b);
    }
  }

  /**
   * The tokens of two strings joined by a space are the tokens of the
   * first followed by those of the second: tokens keep their string order.
   */
  lemma TokensAppend(a: string, b: string)
    ensures Tokens(a + " " + b) == Tokens(a) + Tokens(b)
  {
    assert a + " " + b == a + [' '] + b;
    Text.SplitAppend(a, b, ' ');
    NonEmptyAppend(Text.Split(a, ' '), Text.Split(b, ' '));
  }

  /** The `key` of `const [key, val] = token.split('=')`: the text up to the first '='. */
  function KeyOf(token: string): (key: string)
    ensures |key| <= |token| && key == token[..|key|]
    ensures '=' !in key
    ensures |key| < |token| ==> token[|key|] == '='
  {
    Text.Split(token, '=')[0]
  }

  /** The `val` of the same destructuring: the second piece, or `undefined`. */
  function ValueOf(token: string): (val: Option<string>)
    ensures val.None? <==> '=' !in token
    ensures val.Some? ==> '=' !in val.value
  {
    var parts := Text.Split(token, '=');
    if |parts| >= 2 then Some(parts[1]) else None
  }

  /**
   * One step of the reduce: `acc[key] = val`. On a plain object the key
   * "__proto__" reaches the prototype setter, which ignores a value that
   * is not an object, so that step leaves the object as it was.
   */
  function Assign(acc: EnvMap, token: string): (obj: EnvMap)
    ensures KeyOf(token) != ProtoKey ==> KeyOf(token) in obj && obj[KeyOf(token)] == ValueOf(token)
    ensures KeyOf(token) == ProtoKey ==> obj == acc
    ensures forall k :: k != KeyOf(token) ==> (k in obj <==> k in acc)
    ensures forall k :: k != KeyOf(token) && k in acc ==> obj[k] == acc[k]
  {
    var key := KeyOf(token);
    if key == ProtoKey then acc else acc[key := ValueOf(token)]
  }

  /** The reduce over the tokens, starting from `{}`, as a left fold. */
  function Collect(tokens: seq<string>): (obj: EnvMap)
    ensures ProtoKey !in obj
    ensures forall k :: k in obj ==> HasKey(tokens, k)
  {
    if |tokens| == 0 then map[]
    else Assign(Collect(tokens[..|tokens| - 1]), tokens[|tokens| - 1])
  }

  /** `convertEnvVariablesToObj(env)`. */
  function ConvertEnvVariablesToObj(env: string): (obj: EnvMap)
    ensures ProtoKey !in obj
    ensures forall k :: k in obj ==> ' ' !in k && '=' !in k
  {
    Collect(Tokens(env))
  }

  /**
   * The key is the text before the first '=' and the value the text
   * between the first and the second '='; whatever follows a second '='
   * is dropped; a token without '=' is its own key with no value.
   */
  lemma KeyAndValue(token: string)
    ensures '=' !in KeyOf(token)
    ensures ValueOf(token).None? <==> '=' !in token
    ensures ValueOf(token).None? ==> KeyOf(token) == token
    ensures ValueOf(token).Some? ==>
      var k, v := KeyOf(token), ValueOf(token).value;
      '=' !in v
      && |k| + 1 + |v| <= |token|
      && token[..|k| + 1 + |v|] == k + "=" + v
      && (|k| + 1 + |v| < |token| ==> token[|k| + 1 + |v|] == '=')
  {
    var parts := Text.Split(token, '=');
    if |parts| == 1 {
      assert token == parts[0];
    } else {
      assert token == parts[0] + "=" + Text.Join(parts[1..], '=');
      var rest := parts[1..];
      assert rest[0] == parts[1];
      if |rest| >= 2 {
        assert Text.Join(rest, '=') == parts[1] + "=" + Text.Join(rest[1..], '=');
        assert token == (parts[0] + "=" + parts[1]) + ("=" + Text.Join(rest[1..], '='));
      } else {
        assert token == parts[0] + "=" + parts[1];
      }
      assert token[|parts[0]|] == '=';
    }
  }

  /** Only spaces (or nothing) yield no token, and conversely. */
  lemma {:induction false} NoTokensIffOnlySpaces(env: string)
    ensures Tokens(env) == [] <==> forall i :: 0 <= i < |env| ==> env[i] == ' '
  {
    var parts := Text.Split(env, ' ');
    if Tokens(env) == [] {
      assert forall j :: 0 <= j < |parts| ==> parts[j] == "" by {
        forall j | 0 <= j < |parts| ensures parts[j] == "" {
          assert parts[j] in parts;
        }
      }
      forall i | 0 <= i < |env| ensures env[i] == ' ' {
        Text.JoinChars(parts, ' ', i);
      }
    } else {
      var t := Tokens(env)[0];
      assert t in parts;
      var j :| 0 <= j < |parts| && parts[j] == t;
      Text.JoinContainsParts(parts, ' ', j, t[0]);
      var i :| 0 <= i < |env| && env[i] == t[0];
    }
  }

  /** Some token of the list carries the name `k`. */
  predicate HasKey(tokens: seq<string>, k: string)
  {
    exists i :: 0 <= i < |tokens| && KeyOf(tokens[i]) == k
  }

  /** Token `i` is the last one carrying the name `k`. */
  predicate LastWithKey(tokens: seq<string>, k: string, i: int)
  {
    0 <= i < |tokens| && KeyOf(tokens[i]) == k
    && forall j :: i < j < |tokens| ==> KeyOf(tokens[j]) != k
  }

  /** A name is a key of the fold exactly when some token carries it and it is not "__proto__". */
  lemma {:induction false} CollectKeys(tokens: seq<string>, k: string)
    ensures k in Collect(tokens) <==> k != ProtoKey && HasKey(tokens, k)
  {
    if k != ProtoKey && HasKey(tokens, k) {
      var init := tokens[..|tokens| - 1];
      var last := tokens[|tokens| - 1];
      if KeyOf(last) != k {
        var i :| 0 <= i < |tokens| && KeyOf(tokens[i]) == k;
        assert i < |init| && init[i] == tokens[i];
        CollectKeys(init, k);
      }
    }
  }

  /** The value under a name is the value of the last token carrying it. */
  lemma {:induction false} CollectLastWins(tokens: seq<string>, k: string, i: int)
    requires k != ProtoKey && LastWithKey(tokens, k, i)
    ensures k in Collect(tokens) && Collect(tokens)[k] == ValueOf(tokens[i])
  {
    var init := tokens[..|tokens| - 1];
    var last := tokens[|tokens| - 1];
    assert Collect(tokens) == Assign(Collect(init), last);
    if i < |tokens| - 1 {
      assert KeyOf(last) != k;
      assert LastWithKey(init, k, i) by {
        assert forall j :: 0 <= j < |init| ==> init[j] == tokens[j];
      }
      CollectLastWins(init, k, i);
    }
  }

  /**
   * The converted object, stated over the tokens of the environment
   * string: a name is a key exactly when some token carries it (and it is
   * not "__proto__"), and its value is that of the LAST token carrying it.
   */
  lemma ConvertEntries(env: string, k: string, i: int)
    ensures k in ConvertEnvVariablesToObj(env) <==> k != ProtoKey && HasKey(Tokens(env), k)
    ensures k != ProtoKey && LastWithKey(Tokens(env), k, i) ==>
      ConvertEnvVariablesToObj(env)[k] == ValueOf(Tokens(env)[i])
  {
    CollectKeys(Tokens(env), k);
    if k != ProtoKey && LastWithKey(Tokens(env), k, i) {
      CollectLastWins(Tokens(env), k, i);
    }
  }

  /** An empty or all-space environment string converts to `{}`. */
  lemma BlankEnvIsEmpty(env: string)
    requires forall i :: 0 <= i < |env| ==> env[i] == ' '
    ensures ConvertEnvVariablesToObj(env) == map[]
  {
    NoTokensIffOnlySpaces(env);
  }

  /** Two space-free words around one space are two tokens. */
  lemma TwoTokens(a: string, b: string)
    requires a != "" && b != "" && ' ' !in a && ' ' !in b
    ensures Tokens(a + " " + b) == [a, b]
  {
    Text.SplitHead(a, b, ' ');
    Text.SplitWithoutSep(b, ' ');
    assert a + " " + b == a + [' '] + b;
    assert NonEmpty([a, b]) == [a] + NonEmpty([b]);
  }

  /** `k=v` with no further '=' has key `k` and value `v`. */
  lemma SimplePair(k: string, v: string)
    requires '=' !in k && '=' !in v
    ensures KeyOf(k + "=" + v) == k && ValueOf(k + "=" + v) == Some(v)
  {
    Text.SplitHead(k, v, '=');
    Text.SplitWithoutSep(v, '=');
    assert k + "=" + v == k + ['='] + v;
  }

  /** A token without '=' is a key with value `undefined`. */
  lemma BareKey(t: string)
    requires '=' !in t
    ensures KeyOf(t) == t && ValueOf(t) == None
  {
    Text.SplitWithoutSep(t, '=');
  }

  /** The fold over two tokens is two assignments in order. */
  lemma CollectTwo(a: string, b: string)
    ensures Collect([a, b]) == Assign(Assign(map[], a), b)
  {
    assert [a, b][..1] == [a];
    assert [a][..0] == [];
    assert Collect([a]) == Assign(Collect([]), a);
    assert Collect([a, b]) == Assign(Collect([a]), b);
  }

  /**
   * Quotes are ordinary characters: in `K="a b"` the space still splits,
   * giving the key `K` with value `"a` and a second key `b"` with no value.
   */
  lemma QuotesAreNotSpecial(k: string, a: string, b: string)
    requires k != "" && k != ProtoKey && ' ' !in k && '=' !in k && '"' !in k
    requires ' ' !in a && '=' !in a && ' ' !in b && '=' !in b && b + "\"" != ProtoKey
    ensures ConvertEnvVariablesToObj(k + "=\"" + a + " " + b + "\"") == map[k := Some("\"" + a), b + "\"" := None]
  {
    var first, second := k + "=" + ("\"" + a), b + "\"";
    assert k + "=\"" + a + " " + b + "\"" == first + " " + second;
    assert '"' in second by { assert second[|b|] == '"'; }
    TwoTokens(first, second);
    SimplePair(k, "\"" + a);
    BareKey(second);
    CollectTwo(first, second);
  }

  /** A repeated name keeps the value of its last occurrence: `K=x K=y` gives `{K: y}`. */
  lemma RepeatedKeyKeepsLast(k: string, x: string, y: string)
    requires k != "" && k != ProtoKey && ' ' !in k && '=' !in k
    requires ' ' !in x && '=' !in x && ' ' !in y && '=' !in y
    ensures ConvertEnvVariablesToObj(k + "=" + x + " " + k + "=" + y) == map[k := Some(y)]
  {
    var first, second := k + "=" + x, k + "=" + y;
    assert k + "=" + x + " " + k + "=" + y == first + " " + second;
    TwoTokens(first, second);
    SimplePair(k, x);
    SimplePair(k, y);
    CollectTwo(first, second);
  }

  // ---------------------------------------------------------------------
  // runTest and debugTest
  // ---------------------------------------------------------------------

  /** `getConfig(JestPath) || DEFAULT_JEST_PATH`, as `runTest` resolves it. */
  function RunJestPath(cfg: Config): (path: string)
    ensures path != ""
    ensures cfg.jestPath != "" ==> path == cfg.jestPath
    ensures cfg.jestPath == "" ==> path == Constants.DefaultJestPath
  {
    if cfg.jestPath != "" then cfg.jestPath else Constants.DefaultJestPath
  }

  /**
   * The runner path as `debugTest` resolves it: the configured path, else
   * the Windows debug default when the platform is exactly "win32", else
   * the ordinary default.
   */
  function DebugJestPath(cfg: Config, host: Host): (path: string)
    ensures cfg.jestPath != "" ==> path == cfg.jestPath
    ensures cfg.jestPath == "" && host.platform == "win32" ==> path == host.defaultJestDebugPathWindows
    ensures cfg.jestPath == "" && host.platform != "win32" ==> path == Constants.DefaultJestPath
  {
    if cfg.jestPath != "" then cfg.jestPath
    else if host.platform == "win32" then host.defaultJestDebugPathWindows
    else Constants.DefaultJestPath
  }

  /**
   * Run and debug resolve the same runner path exactly when a path is
   * configured, or the platform is not "win32", or the Windows debug
   * default coincides with the ordinary default.
   */
  lemma RunAndDebugPaths(cfg: Config, host: Host)
    ensures DebugJestPath(cfg, host) == RunJestPath(cfg) <==>
      cfg.jestPath != "" || host.platform != "win32"
      || host.defaultJestDebugPathWindows == Constants.DefaultJestPath
  {
  }

  /**
   * The words of the run command, in order: the environment prefix, the
   * runner, the quoted file, `-t` and the quoted name when a name is
   * given, `-c` and the config path when one is set, `-u` when snapshots
   * are to be updated, then every configured option in order.
   */
  function RunWords(cfg: Config, quote: Quoter, filePath: string, testName: string, updateSnapshots: bool): seq<string>
  {
    RunHead(cfg, quote, filePath, testName, updateSnapshots) + cfg.jestCliOptions
  }

  /** The run words before the configured options. */
  function RunHead(cfg: Config, quote: Quoter, filePath: string, testName: string, updateSnapshots: bool): seq<string>
  {
    [cfg.environmentVariables, RunJestPath(cfg), quote(filePath, FromSettings)]
    + (if testName != "" then ["-t", quote(testName, FromSettings)] else [])
    + (if cfg.jestConfigPath != "" then ["-c", cfg.jestConfigPath] else [])
    + (if updateSnapshots then ["-u"] else [])
  }

  /** The text `runTest` appends for a test name: ` -t <quoted name>`, or nothing. */
  function NameFlag(quote: Quoter, testName: string): string
  {
    if testName != "" then " -t " + quote(testName, FromSettings) else ""
  }

  /** The text `runTest` appends for a config path: ` -c <path>`, or nothing. */
  function ConfigFlag(cfg: Config): string
  {
    if cfg.jestConfigPath != "" then " -c " + cfg.jestConfigPath else ""
  }

  /**
   * The run words before the options, joined: the prefix, runner and
   * quoted file separated by spaces, then ` -t <name>`, ` -c <path>` and
   * ` -u` for the flags that apply.
   */
  lemma HeadCommand(cfg: Config, quote: Quoter, filePath: string, testName: string, updateSnapshots: bool)
    ensures |RunHead(cfg, quote, filePath, testName, updateSnapshots)| >= 3
    ensures Text.Join(RunHead(cfg, quote, filePath, testName, updateSnapshots), ' ') ==
      cfg.environmentVariables + " " + RunJestPath(cfg) + " " + quote(filePath, FromSettings)
      + NameFlag(quote, testName) + ConfigFlag(cfg) + (if updateSnapshots then " -u" else "")
  {
    var w0 := [cfg.environmentVariables, RunJestPath(cfg), quote(filePath, FromSettings)];
    var e1 := if testName != "" then ["-t", quote(testName, FromSettings)] else [];
    var e2 := if cfg.jestConfigPath != "" then ["-c", cfg.jestConfigPath] else [];
    var e3 := if updateSnapshots then ["-u"] else [];
    assert RunHead(cfg, quote, filePath, testName, updateSnapshots) == w0 + e1 + e2 + e3;
    var j0 := cfg.environmentVariables + " " + RunJestPath(cfg) + " " + quote(filePath, FromSettings);
    assert Text.Join(w0, ' ') == j0 by {
      JoinThree(cfg.environmentVariables, RunJestPath(cfg), quote(filePath, FromSettings));
    }
    NameFlagJoin(w0, quote, testName);
    ConfigFlagJoin(w0 + e1, cfg);
    Text.JoinAppend(w0 + e1 + e2, e3, ' ');
  }

  /** Appending a flag and its value to the joined words adds both after spaces. */
  lemma FlagJoin(words: seq<string>, flag: string, value: string)
    requires |words| >= 1
    ensures Text.Join(words + [flag, value], ' ') == Text.Join(words, ' ') + (" " + flag + " " + value)
  {
    Text.JoinAppend(words, [flag, value], ' ');
    assert Text.Join([flag, value], ' ') == flag + " " + value by {
      assert [flag, value][1..] == [value];
    }
    SpacedPair(Text.Join(words, ' '), flag, value);
  }

  /** The flag texts `runTest` appends, spelled as space-separated words. */
  lemma FlagSpelling(value: string)
    ensures " " + "-t" + " " + value == " -t " + value
    ensures " " + "-c" + " " + value == " -c " + value
  {
    assert " " + "-t" + " " == " -t ";
    assert " " + "-c" + " " == " -c ";
  }

  /** Regrouping a space-separated pair after a text. */
  lemma SpacedPair(text: string, a: string, b: string)
    ensures text + " " + (a + " " + b) == text + (" " + a + " " + b)
  {
  }

  /** Appending the test-name words to the joined words appends `NameFlag`. */
  lemma NameFlagJoin(words: seq<string>, quote: Quoter, testName: string)
    requires |words| >= 1
    ensures Text.Join(words + (if testName != "" then ["-t", quote(testName, FromSettings)] else []), ' ')
         == Text.Join(words, ' ') + NameFlag(quote, testName)
  {
    if testName != "" {
      FlagJoin(words, "-t", quote(testName, FromSettings));
      FlagSpelling(quote(testName, FromSettings));
    } else {
      assert words + [] == words;
    }
  }

  /** Appending the config-path words to the joined words appends `ConfigFlag`. */
  lemma ConfigFlagJoin(words: seq<string>, cfg: Config)
    requires |words| >= 1
    ensures Text.Join(words + (if cfg.jestConfigPath != "" then ["-c", cfg.jestConfigPath] else []), ' ')
         == Text.Join(words, ' ') + ConfigFlag(cfg)
  {
    if cfg.jestConfigPath != "" {
      FlagJoin(words, "-c", cfg.jestConfigPath);
      FlagSpelling(cfg.jestConfigPath);
    } else {
      assert words + [] == words;
    }
  }

  /** Three words joined by spaces. */
  lemma JoinThree(a: string, b: string, c: string)
    ensures Text.Join([a, b, c], ' ') == a + " " + b + " " + c
  {
    assert [a, b, c][1..] == [b, c];
    assert [b, c][1..] == [c];
    assert Text.Join([b, c], ' ') == b + " " + c;
    assert Text.Join([a, b, c], ' ') == a + " " + (b + " " + c);
  }

  /**
   * The options loop of `runTest`: each option is appended after a single
   * space, so a command that joins `head` comes to join `head` followed
   * by the options, in their configured order.
   */
  method AppendOptions(command: string, ghost head: seq<string>, options: seq<string>) returns (extended: string)
    requires |head| >= 1 && command == Text.Join(head, ' ')
    ensures extended == Text.Join(head + options, ' ')
  {
    extended := command;
    var i := 0;
    assert head + options[..0] == head;
    while i < |options|
      invariant 0 <= i <= |options|
      invariant extended == Text.Join(head + options[..i], ' ')
    {
      Text.JoinSnoc(head + options[..i], options[i], ' ');
      assert head + options[..i + 1] == head + options[..i] + [options[i]];
      extended := extended + " " + options[i];
      i := i + 1;
    }
    assert options[..i] == options;
  }

  /**
   * The command `runTest` sends to the terminal: the run words joined by
   * single spaces, trimmed, so it neither starts nor ends with whitespace.
   */
  method RunTest(cfg: Config, quote: Quoter, filePath: string, testName: string, updateSnapshots: bool)
    returns (command: string)
    ensures command == Text.Trim(Text.Join(RunWords(cfg, quote, filePath, testName, updateSnapshots), ' '))
  {
    var jestPath := RunJestPath(cfg);
    var cmd := cfg.environmentVariables + " " + jestPath + " " + quote(filePath, FromSettings);
    ghost var base := cmd;
    if testName != "" {
      cmd := cmd + " -t " + quote(testName, FromSettings);
    }
    ghost var withName := cmd;
    assert withName == base + NameFlag(quote, testName);
    if cfg.jestConfigPath != "" {
      cmd := cmd + " -c " + cfg.jestConfigPath;
    }
    ghost var withConfig := cmd;
    assert withConfig == withName + ConfigFlag(cfg);
    if updateSnapshots {
      cmd := cmd + " -u";
    }
    assert cmd == withConfig + (if updateSnapshots then " -u" else "");
    ghost var head := RunHead(cfg, quote, filePath, testName, updateSnapshots);
    HeadCommand(cfg, quote, filePath, testName, updateSnapshots);
    cmd := AppendOptions(cmd, head, cfg.jestCliOptions);
    command := Text.Trim(cmd);
  }

  /**
   * With an empty (or all-whitespace) environment prefix the command is
   * just the remaining words: no stray leading space reaches the terminal.
   */
  lemma BlankPrefixIsDropped(cfg: Config, quote: Quoter, filePath: string, testName: string, updateSnapshots: bool)
    requires forall i :: 0 <= i < |cfg.environmentVariables| ==> Text.IsWhitespace(cfg.environmentVariables[i])
    ensures var words := RunWords(cfg, quote, filePath, testName, updateSnapshots);
      Text.Trim(Text.Join(words, ' ')) == Text.Trim(Text.Join(words[1..], ' '))
  {
    var words := RunWords(cfg, quote, filePath, testName, updateSnapshots);
    var env := cfg.environmentVariables;
    assert Text.Join(words, ' ') == (env + " ") + Text.Join(words[1..], ' ');
    Text.TrimAfterWhitespace(env + " ", Text.Join(words[1..], ' '));
  }

  /** Asking for a snapshot update inserts `-u` just before the configured options. */
  lemma UpdateFlagPlacement(cfg: Config, quote: Quoter, filePath: string, testName: string)
    ensures var plain := RunWords(cfg, quote, filePath, testName, false);
      var n := |plain| - |cfg.jestCliOptions|;
      0 <= n && RunWords(cfg, quote, filePath, testName, true) == plain[..n] + ["-u"] + cfg.jestCliOptions
  {
    var plain := RunWords(cfg, quote, filePath, testName, false);
    var n := |plain| - |cfg.jestCliOptions|;
    assert plain[..n] + cfg.jestCliOptions == plain;
  }

  /**
   * The debugger's arguments, in order: the quoted file, `-t` and the
   * name quoted with mode 'none' when a name is given, `-c` and the config
   * path when one is set, every configured option in order, and
   * `--runInBand` last.
   */
  function DebugArgs(cfg: Config, quote: Quoter, filePath: string, testName: string): seq<string>
  {
    [quote(filePath, FromSettings)]
    + (if testName != "" then ["-t", quote(testName, QuoteNone)] else [])
    + (if cfg.jestConfigPath != "" then ["-c", cfg.jestConfigPath] else [])
    + cfg.jestCliOptions
    + ["--runInBand"]
  }

  /** The launch record `debugTest` hands to the debugger. */
  datatype DebugConfiguration = DebugConfiguration(
    console: string,
    internalConsoleOptions: string,
    name: string,
    program: string,
    request: string,
    debugType: string,
    args: seq<string>,
    env: EnvMap)

  /**
   * The launch record of `debugTest`: the arguments, the workspace-relative
   * runner, the fixed launch fields, and as `env` the conversion of the
   * same environment string that `runTest` uses as its prefix.
   */
  method DebugTest(cfg: Config, host: Host, quote: Quoter, filePath: string, testName: string)
    returns (launch: DebugConfiguration)
    ensures launch.args == DebugArgs(cfg, quote, filePath, testName)
    ensures |launch.args| >= 2 && launch.args[|launch.args| - 1] == "--runInBand"
    ensures launch.args[0] == quote(filePath, FromSettings)
    ensures launch.program == "${workspaceFolder}/" + DebugJestPath(cfg, host)
    ensures launch.env == ConvertEnvVariablesToObj(cfg.environmentVariables)
    ensures launch.name == "JestRunIt" && launch.request == "launch" && launch.debugType == "node"
    ensures launch.console == "integratedTerminal" && launch.internalConsoleOptions == "neverOpen"
  {
    var jestPath := DebugJestPath(cfg, host);
    var args := [quote(filePath, FromSettings)];
    if testName != "" {
      args := args + ["-t", quote(testName, QuoteNone)];
    }
    if cfg.jestConfigPath != "" {
      args := args + ["-c", cfg.jestConfigPath];
    }
    ghost var head := args;
    var options := cfg.jestCliOptions;
    var i := 0;
    while i < |options|
      invariant 0 <= i <= |options|
      invariant args == head + options[..i]
    {
      assert options[..i + 1] == options[..i] + [options[i]];
      args := args + [options[i]];
      i := i + 1;
    }
    assert options[..i] == options;
    args := args + ["--runInBand"];
    launch := DebugConfiguration(
      "integratedTerminal", "neverOpen", "JestRunIt", "${workspaceFolder}/" + jestPath,
      "launch", "node", args, ConvertEnvVariablesToObj(cfg.environmentVariables));
  }

  /**
   * Run and debug agree: without `-u`, the debug arguments are the run
   * words after the environment prefix and the runner, with only the test
   * name quoted as 'none' instead of by the settings, plus `--runInBand`.
   */
  lemma RunAndDebugAgree(cfg: Config, quote: Quoter, filePath: string, testName: string)
    ensures var run := RunWords(cfg, quote, filePath, testName, false)[2..];
      DebugArgs(cfg, quote, filePath, testName) ==
        (if testName != "" then run[2 := quote(testName, QuoteNone)] else run) + ["--runInBand"]
  {
  }

  /** When the quoter treats the name alike in both modes, the two argument lists coincide. */
  lemma RunAndDebugAgreeOnPlainNames(cfg: Config, quote: Quoter, filePath: string, testName: string)
    requires quote(testName, FromSettings) == quote(testName, QuoteNone)
    ensures DebugArgs(cfg, quote, filePath, testName) ==
      RunWords(cfg, quote, filePath, testName, false)[2..] + ["--runInBand"]
  {
    RunAndDebugAgree(cfg, quote, filePath, testName);
    var run := RunWords(cfg, quote, filePath, testName, false)[2..];
    if testName != "" {
      assert run[2] == quote(testName, FromSettings);
      assert run[2 := quote(testName, QuoteNone)] == run;
    }
  }
}
