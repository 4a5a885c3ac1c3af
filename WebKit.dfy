/**
 * The WebKit browser type (src/server/webkit.ts): the command line WebKit is
 * launched with (`_defaultArgs`) and the environment it is given
 * (`_amendEnvironment`).
 */
module WebKit {
  import opened Wrappers
  import opened Strings

  /** The `proxy` launch option. */
  datatype Proxy = Proxy(server: string, bypass: Option<string>)

  /** The launch options `_defaultArgs` reads; `args` is optional and defaults to none. */
  datatype LaunchOptions = LaunchOptions(args: Option<seq<string>>, proxy: Option<Proxy>, devtools: bool, headless: bool)

  const UserDataDirError := "Pass userDataDir parameter instead of specifying --user-data-dir argument"
  const PageArgumentError := "Arguments can not specify page to be opened"

  const UserDataDirPrefix := "--user-data-dir="
  const IgnoreHostPrefix := "--ignore-host="
  const AboutBlank := "about:blank"

  /** The user's arguments, `[]` when the option is absent. */
  function UserArgs(options: LaunchOptions): seq<string> {
    if options.args.Some? then options.args.value else []
  }

  /** A JavaScript string value in a condition: only the empty string is false. */
  predicate Truthy(s: Option<string>) {
    s.Some? && s.value != ""
  }

  // ---------------------------------------------------------------------------
  // Argument validation

  /** `args.find(pred)`: the first argument satisfying `pred`, if any. */
  function Find(args: seq<string>, pred: string -> bool): (r: Option<string>)
    ensures r.Some? <==> exists i :: 0 <= i < |args| && pred(args[i])
    ensures r.Some? ==> pred(r.value) && r.value in args
    decreases |args|
  {
    if args == [] then None
    else if pred(args[0]) then Some(args[0])
    else
      var r := Find(args[1..], pred);
      assert forall i :: 1 <= i < |args| ==> args[i] == args[1..][i - 1];
      r
  }

  /** `find` returns the first matching argument: one at a position before which nothing matches. */
  lemma {:induction false} FindFirst(args: seq<string>, pred: string -> bool)
    ensures Find(args, pred).Some? ==>
      exists i :: 0 <= i < |args| && args[i] == Find(args, pred).value && forall j :: 0 <= j < i ==> !pred(args[j])
    decreases |args|
  {
    if args != [] && !pred(args[0]) {
      FindFirst(args[1..], pred);
      var r := Find(args[1..], pred);
      if r.Some? {
        var k :| 0 <= k < |args[1..]| && args[1..][k] == r.value && forall j :: 0 <= j < k ==> !pred(args[1..][j]);
        assert args[k + 1] == r.value;
        assert forall j :: 0 <= j < k + 1 ==> !pred(args[j]) by {
          forall j | 0 <= j < k + 1
            ensures !pred(args[j])
          {
            if j > 0 {
              assert args[j] == args[1..][j - 1];
            }
          }
        }
      }
    } else if args != [] {
      assert args[0] == Find(args, pred).value;
    }
  }

  predicate NamesUserDataDir(arg: string) {
    StartsWith(arg, UserDataDirPrefix)
  }

  predicate NotAnOption(arg: string) {
    !StartsWith(arg, "-")
  }

  /** An argument that names a page: a non-empty one that does not start with `-`. */
  predicate NamesPage(arg: string) {
    arg != "" && NotAnOption(arg)
  }

  /**
   * The two checks at the top of `_defaultArgs` as written: each throws when
   * `find` returns a truthy value. `None` means both checks pass.
   */
  function CheckArgsAsWritten(args: seq<string>): Option<string> {
    if Truthy(Find(args, NamesUserDataDir)) then Some(UserDataDirError)
    else if Truthy(Find(args, NotAnOption)) then Some(PageArgumentError)
    else None
  }

  /** The two checks as intended: no `--user-data-dir=` argument, then no argument naming a page. */
  function CheckArgs(args: seq<string>): Option<string> {
    if exists i :: 0 <= i < |args| && NamesUserDataDir(args[i]) then Some(UserDataDirError)
    else if exists i :: 0 <= i < |args| && NamesPage(args[i]) then Some(PageArgumentError)
    else None
  }

  /**
   * The first check is exact as written: a `--user-data-dir=` argument is
   * never empty, so `find` returns a truthy value exactly when there is one.
   */
  lemma UserDataDirCheckExact(args: seq<string>)
    ensures Truthy(Find(args, NamesUserDataDir)) <==> exists i :: 0 <= i < |args| && NamesUserDataDir(args[i])
  {
    var r := Find(args, NamesUserDataDir);
    if r.Some? {
      assert |r.value| >= |UserDataDirPrefix|;
    }
  }

  /**
   * The second check as written lets a page through when an empty argument
   * comes before it: `find` returns that empty string, which is false.
   */
  lemma EmptyArgumentHidesPage()
    ensures CheckArgsAsWritten(["", "http://example.com"]) == None
    ensures CheckArgs(["", "http://example.com"]) == Some(PageArgumentError)
  {
    var args := ["", "http://example.com"];
    assert !NamesUserDataDir(args[0]);
    assert args[1][..1] == "h";
    assert !NamesUserDataDir(args[1]) by {
      assert args[1][..|UserDataDirPrefix|][0] != UserDataDirPrefix[0];
    }
    assert NotAnOption(args[0]);
    assert Find(args, NotAnOption) == Some("");
    assert NamesPage(args[1]);
  }

  /** Without empty arguments the checks as written and as intended agree. */
  lemma ChecksAgreeWithoutEmptyArguments(args: seq<string>)
    requires forall i :: 0 <= i < |args| ==> args[i] != ""
    ensures CheckArgsAsWritten(args) == CheckArgs(args)
  {
    UserDataDirCheckExact(args);
    var r := Find(args, NotAnOption);
    if r.Some? {
      var i :| 0 <= i < |args| && args[i] == r.value;
      assert NamesPage(args[i]);
    }
    if exists i :: 0 <= i < |args| && NamesPage(args[i]) {
      var i :| 0 <= i < |args| && NamesPage(args[i]);
      assert NotAnOption(args[i]);
    }
  }

  /** Whatever the check as written rejects, the intended check rejects with the same error. */
  lemma CheckAsWrittenIsWeaker(args: seq<string>)
    ensures CheckArgsAsWritten(args).Some? ==> CheckArgs(args) == CheckArgsAsWritten(args)
  {
    UserDataDirCheckExact(args);
    var r := Find(args, NotAnOption);
    if Truthy(r) {
      var i :| 0 <= i < |args| && args[i] == r.value;
      assert NamesPage(args[i]);
    }
  }

  // ---------------------------------------------------------------------------
  // Proxy flags

  /** `--ignore-host=<t>` for each piece of the bypass list. */
  function IgnoreHostFlags(hosts: seq<string>): (flags: seq<string>)
    ensures |flags| == |hosts|
    ensures forall i :: 0 <= i < |hosts| ==> flags[i] == IgnoreHostPrefix + hosts[i]
  {
    seq(|hosts|, i requires 0 <= i < |hosts| => IgnoreHostPrefix + hosts[i])
  }

  /** The host each `--ignore-host=` flag names. */
  function IgnoredHosts(flags: seq<string>): (hosts: seq<string>)
    requires forall i :: 0 <= i < |flags| ==> StartsWith(flags[i], IgnoreHostPrefix)
    ensures |hosts| == |flags|
  {
    seq(|flags|, i requires 0 <= i < |flags| && StartsWith(flags[i], IgnoreHostPrefix) => flags[i][|IgnoreHostPrefix|..])
  }

  /** The proxy flags for `platform` (`process.platform`). */
  function ProxyFlags(proxy: Option<Proxy>, platform: string): seq<string> {
    if proxy.None? then []
    else
      var p := proxy.value;
      if platform == "darwin" then
        ["--proxy=" + p.server] + (if Truthy(p.bypass) then ["--proxy-bypass-list=" + p.bypass.value] else [])
      else if platform == "linux" then
        ["--proxy=" + p.server] + (if Truthy(p.bypass) then IgnoreHostFlags(Split(p.bypass.value, ',')) else [])
      else if platform == "win32" then
        ["--curl-proxy=" + p.server] + (if Truthy(p.bypass) then ["--curl-noproxy=" + p.bypass.value] else [])
      else []
  }

  /**
   * Without a proxy, or on a platform other than macOS, Linux and Windows, no
   * proxy flag is passed; otherwise the first names the server, and a bypass
   * list adds flags exactly when it is non-empty.
   */
  lemma ProxyServerFlag(proxy: Option<Proxy>, platform: string)
    ensures proxy.None? || platform !in {"darwin", "linux", "win32"} ==> ProxyFlags(proxy, platform) == []
    ensures proxy.Some? && platform in {"darwin", "linux"} ==>
      |ProxyFlags(proxy, platform)| >= 1 && ProxyFlags(proxy, platform)[0] == "--proxy=" + proxy.value.server
    ensures proxy.Some? && platform == "win32" ==>
      |ProxyFlags(proxy, platform)| >= 1 && ProxyFlags(proxy, platform)[0] == "--curl-proxy=" + proxy.value.server
    ensures proxy.Some? && platform in {"darwin", "linux", "win32"} ==>
      (|ProxyFlags(proxy, platform)| > 1 <==> Truthy(proxy.value.bypass))
  {
    if proxy.Some? && platform == "linux" && Truthy(proxy.value.bypass) {
      assert |Split(proxy.value.bypass.value, ',')| >= 1;
    }
  }

  /**
   * On macOS and Windows a bypass list is passed whole; on Linux it is split
   * at commas into one `--ignore-host=` flag per host, and those hosts joined
   * by commas give the list back.
   */
  lemma ProxyBypassFlags(p: Proxy, platform: string)
    requires Truthy(p.bypass)
    ensures platform == "darwin" ==> ProxyFlags(Some(p), platform)[1..] == ["--proxy-bypass-list=" + p.bypass.value]
    ensures platform == "win32" ==> ProxyFlags(Some(p), platform)[1..] == ["--curl-noproxy=" + p.bypass.value]
    ensures platform == "linux" ==>
      var flags := ProxyFlags(Some(p), platform)[1..];
      && (forall i :: 0 <= i < |flags| ==> StartsWith(flags[i], IgnoreHostPrefix))
      && Join(IgnoredHosts(flags), ',') == p.bypass.value
  {
    if platform == "linux" {
      var hosts := Split(p.bypass.value, ',');
      var flags := ProxyFlags(Some(p), platform)[1..];
      assert flags == IgnoreHostFlags(hosts);
      forall i | 0 <= i < |flags|
        ensures StartsWith(flags[i], IgnoreHostPrefix) && flags[i][|IgnoreHostPrefix|..] == hosts[i]
      {
        assert flags[i] == IgnoreHostPrefix + hosts[i];
      }
      assert IgnoredHosts(flags) == hosts;
      JoinSplit(p.bypass.value, ',');
    }
  }

  // ---------------------------------------------------------------------------
  // `_defaultArgs`

  /** The flags `_defaultArgs` generates ahead of the user's arguments. */
  function GeneratedFlags(headless: bool, isPersistent: bool, userDataDir: string, proxy: Option<Proxy>, platform: string): seq<string> {
    ["--inspector-pipe"]
      + (if headless then ["--headless"] else [])
      + [if isPersistent then UserDataDirPrefix + userDataDir else "--no-startup-window"]
      + ProxyFlags(proxy, platform)
  }

  /** The command line once the checks pass: the generated flags, the user's arguments, `about:blank` for a persistent context. */
  function CommandLine(options: LaunchOptions, isPersistent: bool, userDataDir: string, platform: string): seq<string> {
    GeneratedFlags(options.headless, isPersistent, userDataDir, options.proxy, platform)
      + UserArgs(options) + (if isPersistent then [AboutBlank] else [])
  }

  /** What `_defaultArgs` returns or throws, with the checks as written. */
  function LaunchArgsAsWritten(options: LaunchOptions, isPersistent: bool, userDataDir: string, platform: string): Result<seq<string>, string> {
    var check := CheckArgsAsWritten(UserArgs(options));
    if check.Some? then Err(check.value) else Ok(CommandLine(options, isPersistent, userDataDir, platform))
  }

  /** The launch with the checks as intended: any argument naming a page is refused. */
  function LaunchArgs(options: LaunchOptions, isPersistent: bool, userDataDir: string, platform: string): Result<seq<string>, string> {
    var check := CheckArgs(UserArgs(options));
    if check.Some? then Err(check.value) else Ok(CommandLine(options, isPersistent, userDataDir, platform))
  }

  /**
   * The launch as written and as intended differ only where an empty argument
   * hides a page: without empty arguments they agree, and whatever the code
   * refuses is refused by the intended check with the same error.
   */
  lemma LaunchArgsAgree(options: LaunchOptions, isPersistent: bool, userDataDir: string, platform: string)
    ensures (forall i :: 0 <= i < |UserArgs(options)| ==> UserArgs(options)[i] != "") ==>
      LaunchArgsAsWritten(options, isPersistent, userDataDir, platform) == LaunchArgs(options, isPersistent, userDataDir, platform)
    ensures LaunchArgsAsWritten(options, isPersistent, userDataDir, platform).Err? ==>
      LaunchArgs(options, isPersistent, userDataDir, platform) == LaunchArgsAsWritten(options, isPersistent, userDataDir, platform)
  {
    var args := UserArgs(options);
    CheckAsWrittenIsWeaker(args);
    if forall i :: 0 <= i < |args| ==> args[i] != "" {
      ChecksAgreeWithoutEmptyArguments(args);
    }
  }

  /** As written, an empty argument in front of a URL gets the URL passed to WebKit as the page to open. */
  lemma EmptyArgumentOpensPage(userDataDir: string, platform: string)
    ensures LaunchArgsAsWritten(LaunchOptions(Some(["", "http://example.com"]), None, false, false), false, userDataDir, platform)
         == Ok(["--inspector-pipe", "--no-startup-window", "", "http://example.com"])
    ensures LaunchArgs(LaunchOptions(Some(["", "http://example.com"]), None, false, false), false, userDataDir, platform)
         == Err(PageArgumentError)
  {
    EmptyArgumentHidesPage();
    var options := LaunchOptions(Some(["", "http://example.com"]), None, false, false);
    assert GeneratedFlags(false, false, userDataDir, None, platform) == ["--inspector-pipe", "--no-startup-window"];
    assert UserArgs(options) == ["", "http://example.com"];
    assert CheckArgsAsWritten(UserArgs(options)) == None;
    assert CommandLine(options, false, userDataDir, platform)
        == ["--inspector-pipe", "--no-startup-window"] + ["", "http://example.com"] + [];
    assert ["--inspector-pipe", "--no-startup-window"] + ["", "http://example.com"] + []
        == ["--inspector-pipe", "--no-startup-window", "", "http://example.com"];
  }

  /** `_defaultArgs(options, isPersistent, userDataDir)`, building the command line step by step. */
  method DefaultArgs(options: LaunchOptions, isPersistent: bool, userDataDir: string, platform: string)
    returns (r: Result<seq<string>, string>)
    ensures r == LaunchArgsAsWritten(options, isPersistent, userDataDir, platform)
  {
    var args := UserArgs(options);
    var userDataDirArg := Find(args, NamesUserDataDir);
    if Truthy(userDataDirArg) {
      return Err(UserDataDirError);
    }
    if Truthy(Find(args, NotAnOption)) {
      return Err(PageArgumentError);
    }
    var webkitArguments := ["--inspector-pipe"];
    if options.headless {
      webkitArguments := webkitArguments + ["--headless"];
    }
    if isPersistent {
      webkitArguments := webkitArguments + [UserDataDirPrefix + userDataDir];
    } else {
      webkitArguments := webkitArguments + ["--no-startup-window"];
    }
    ghost var profile := webkitArguments;
    assert profile == ["--inspector-pipe"] + (if options.headless then ["--headless"] else [])
      + [if isPersistent then UserDataDirPrefix + userDataDir else "--no-startup-window"];
    if options.proxy.Some? {
      var proxy := options.proxy.value;
      if platform == "darwin" {
        webkitArguments := webkitArguments + ["--proxy=" + proxy.server];
        if Truthy(proxy.bypass) {
          AppendAssoc(profile, ["--proxy=" + proxy.server], ["--proxy-bypass-list=" + proxy.bypass.value]);
          webkitArguments := webkitArguments + ["--proxy-bypass-list=" + proxy.bypass.value];
        }
      } else if platform == "linux" {
        webkitArguments := webkitArguments + ["--proxy=" + proxy.server];
        if Truthy(proxy.bypass) {
          AppendAssoc(profile, ["--proxy=" + proxy.server], IgnoreHostFlags(Split(proxy.bypass.value, ',')));
          webkitArguments := webkitArguments + IgnoreHostFlags(Split(proxy.bypass.value, ','));
        }
      } else if platform == "win32" {
        webkitArguments := webkitArguments + ["--curl-proxy=" + proxy.server];
        if Truthy(proxy.bypass) {
          AppendAssoc(profile, ["--curl-proxy=" + proxy.server], ["--curl-noproxy=" + proxy.bypass.value]);
          webkitArguments := webkitArguments + ["--curl-noproxy=" + proxy.bypass.value];
        }
      }
    }
    assert webkitArguments == profile + ProxyFlags(options.proxy, platform);
    assert webkitArguments == GeneratedFlags(options.headless, isPersistent, userDataDir, options.proxy, platform);
    webkitArguments := webkitArguments + args;
    if isPersistent {
      webkitArguments := webkitArguments + [AboutBlank];
    } else {
      assert webkitArguments + [] == webkitArguments;
    }
    return Ok(webkitArguments);
  }

  /** With the intended checks, launching fails exactly when a check fails, the `--user-data-dir=` check first. */
  lemma LaunchErrors(options: LaunchOptions, isPersistent: bool, userDataDir: string, platform: string)
    ensures var r := LaunchArgs(options, isPersistent, userDataDir, platform);
      var args := UserArgs(options);
      && (r == Err(UserDataDirError) <==> exists i :: 0 <= i < |args| && NamesUserDataDir(args[i]))
      && (r == Err(PageArgumentError) <==>
            (forall i :: 0 <= i < |args| ==> !NamesUserDataDir(args[i]))
            && exists i :: 0 <= i < |args| && NamesPage(args[i]))
      && (r.Err? ==> r.error in {UserDataDirError, PageArgumentError})
  {
    assert UserDataDirError != PageArgumentError by {
      assert |UserDataDirError| != |PageArgumentError|;
    }
  }

  /**
   * A command line starts with `--inspector-pipe`; `--headless` comes next
   * exactly for a headless launch; then the profile flag: the user data
   * directory for a persistent context, `--no-startup-window` otherwise.
   */
  lemma LaunchFlagsOrder(options: LaunchOptions, isPersistent: bool, userDataDir: string, platform: string)
    ensures var r := LaunchArgsAsWritten(options, isPersistent, userDataDir, platform);
      r.Ok? ==>
        var h := if options.headless then 1 else 0;
        && |r.value| >= 2 + h
        && r.value[0] == "--inspector-pipe"
        && (r.value[1] == "--headless" <==> options.headless)
        && r.value[1 + h] == (if isPersistent then UserDataDirPrefix + userDataDir else "--no-startup-window")
  {
    var r := LaunchArgsAsWritten(options, isPersistent, userDataDir, platform);
    if r.Ok? && !options.headless {
      if isPersistent {
        var flag := UserDataDirPrefix + userDataDir;
        assert flag[2] != "--headless"[2];
      } else {
        assert "--no-startup-window"[2] != "--headless"[2];
      }
    }
  }

  /** The user's arguments are passed on unchanged and in order, right after the generated flags. */
  lemma UserArgsPassedInOrder(options: LaunchOptions, isPersistent: bool, userDataDir: string, platform: string)
    ensures var r := LaunchArgsAsWritten(options, isPersistent, userDataDir, platform);
      var n := |GeneratedFlags(options.headless, isPersistent, userDataDir, options.proxy, platform)|;
      r.Ok? ==>
        && |r.value| == n + |UserArgs(options)| + (if isPersistent then 1 else 0)
        && r.value[n..n + |UserArgs(options)|] == UserArgs(options)
        && (isPersistent ==> r.value[|r.value| - 1] == AboutBlank)
  {
  }

  /** Every generated flag is an option: it starts with `--`. */
  lemma GeneratedFlagsAreOptions(headless: bool, isPersistent: bool, userDataDir: string, proxy: Option<Proxy>, platform: string)
    ensures var g := GeneratedFlags(headless, isPersistent, userDataDir, proxy, platform);
      forall i :: 0 <= i < |g| ==> StartsWith(g[i], "--")
  {
    var g := GeneratedFlags(headless, isPersistent, userDataDir, proxy, platform);
    forall i | 0 <= i < |g|
      ensures StartsWith(g[i], "--")
    {
      var f := g[i];
      if f in ProxyFlags(proxy, platform) {
        ProxyFlagIsOption(proxy, platform, f);
      } else if f == UserDataDirPrefix + userDataDir {
        OptionFlag(UserDataDirPrefix, userDataDir);
      } else {
        assert f in ["--inspector-pipe", "--headless", "--no-startup-window"];
        assert "--inspector-pipe"[..2] == "--headless"[..2] == "--no-startup-window"[..2] == "--";
      }
    }
  }

  /** A flag made of an option prefix and a value is an option. */
  lemma OptionFlag(prefix: string, value: string)
    requires StartsWith(prefix, "--")
    ensures StartsWith(prefix + value, "--")
  {
    assert (prefix + value)[..2] == prefix[..2];
  }

  /** A proxy flag is an option. */
  lemma ProxyFlagIsOption(proxy: Option<Proxy>, platform: string, f: string)
    requires f in ProxyFlags(proxy, platform)
    ensures StartsWith(f, "--")
  {
    var p := proxy.value;
    if platform == "linux" && Truthy(p.bypass) && f != "--proxy=" + p.server {
      var hosts := Split(p.bypass.value, ',');
      var flags := IgnoreHostFlags(hosts);
      assert f in flags;
      var i :| 0 <= i < |flags| && flags[i] == f;
      OptionFlag(IgnoreHostPrefix, hosts[i]);
    } else if f == "--proxy=" + p.server {
      OptionFlag("--proxy=", p.server);
    } else if f == "--curl-proxy=" + p.server {
      OptionFlag("--curl-proxy=", p.server);
    } else if platform == "darwin" {
      OptionFlag("--proxy-bypass-list=", p.bypass.value);
    } else {
      OptionFlag("--curl-noproxy=", p.bypass.value);
    }
  }

  /**
   * With the intended checks, the only page WebKit is told to open is
   * `about:blank`, and only for a persistent context: every other argument
   * is empty or an option. The code as written agrees whenever no argument
   * is empty (`LaunchArgsAgree`) and otherwise may open a page
   * (`EmptyArgumentOpensPage`).
   */
  lemma OnlyBlankPageOpened(options: LaunchOptions, isPersistent: bool, userDataDir: string, platform: string)
    ensures var r := LaunchArgs(options, isPersistent, userDataDir, platform);
      r.Ok? ==>
        && (forall i :: 0 <= i < |r.value| && r.value[i] != AboutBlank ==> r.value[i] == "" || StartsWith(r.value[i], "-"))
        && (AboutBlank in r.value <==> isPersistent)
        && |r.value| >= 1
        && (r.value[|r.value| - 1] == AboutBlank <==> isPersistent)
  {
    var r := LaunchArgs(options, isPersistent, userDataDir, platform);
    if r.Ok? {
      var g := GeneratedFlags(options.headless, isPersistent, userDataDir, options.proxy, platform);
      var args := UserArgs(options);
      GeneratedFlagsAreOptions(options.headless, isPersistent, userDataDir, options.proxy, platform);
      assert forall i :: 0 <= i < |args| ==> !NamesPage(args[i]);
      forall i | 0 <= i < |r.value| && r.value[i] != AboutBlank
        ensures r.value[i] == "" || StartsWith(r.value[i], "-")
      {
        if i < |g| {
          assert r.value[i] == g[i];
          assert g[i][..2][..1] == "-";
        } else {
          assert i < |g| + |args|;
          assert r.value[i] == args[i - |g|];
        }
      }
      if !isPersistent {
        assert r.value == g + args;
        assert AboutBlank[..1] == "a" && AboutBlank[..2] == "ab";
        assert NamesPage(AboutBlank) && !StartsWith(AboutBlank, "--");
      } else {
        assert r.value[|r.value| - 1] == AboutBlank;
      }
    }
  }

  // ---------------------------------------------------------------------------
  // `_amendEnvironment`

  const CookieJarVariable := "CURL_COOKIE_JAR_PATH"
  const CookieJarFile := "cookiejar.db"

  /**
   * The launch environment with `CURL_COOKIE_JAR_PATH` set to the cookie jar
   * inside the user data directory; `join` is `path.join`. Every other
   * variable is kept.
   */
  function AmendEnvironment(env: map<string, string>, userDataDir: string, join: (string, string) -> string): (r: map<string, string>)
    ensures r.Keys == env.Keys + {CookieJarVariable}
    ensures r[CookieJarVariable] == join(userDataDir, CookieJarFile)
    ensures forall k :: k in env && k != CookieJarVariable ==> r[k] == env[k]
  {
    env[CookieJarVariable := join(userDataDir, CookieJarFile)]
  }

  /** Amending twice is amending once: the earlier cookie jar path is replaced, not kept. */
  lemma AmendEnvironmentIdempotent(env: map<string, string>, userDataDir: string, join: (string, string) -> string)
    ensures AmendEnvironment(AmendEnvironment(env, userDataDir, join), userDataDir, join)
         == AmendEnvironment(env, userDataDir, join)
  {
  }
}
