/** The flags of the runtime-login command. */
module LoginArgs {
  import opened Wrappers
  import opened Text
  import opened Numerals
  import opened LoginNames

  const MAX_CONNECTION_LIMIT: nat := 100_000

  /** `retire` holds the login to keep, if one is named, when a retire mode is asked for. */
  datatype Args = Args(login: string, connectionLimit: int, allowRemote: bool, verifyHost: Option<string>,
                       plaintextPassword: bool, retire: Option<Option<string>>, force: bool)

  datatype ArgError =
    | NeedsValue(flag: string)
    | NotAKitLogin(flag: string, name: string)
    | RetireTwice
    | TakesNoValue(flag: string)
    | BadLimit
    | BadHost
    | Unknown(flag: string)
    | NotWithRetire(flags: seq<string>)
    | ForceAlone

  const CREATE_FLAGS := ["--login", "--connection-limit", "--verify-host", "--plaintext-password"]

  function Defaults(schema: string): Args { Args(DefaultLoginName(schema), -1, false, None, false, None, false) }

  predicate NamesLogin(schema: string, name: string) {
    name == DefaultLoginName(schema) || IsKitLoginName(schema, name)
  }

  predicate HostChar(c: char) { 'A' <= c <= 'Z' || 'a' <= c <= 'z' || IsDigit(c) || c == '.' || c == '-' }

  predicate IsHost(s: string) { 1 <= |s| <= 253 && forall c | c in s :: HostChar(c) }

  /** An optional minus and digits; none for anything else. */
  function WholeNumber(s: string): Option<int> {
    var minus := s != "" && s[0] == '-';
    match Value(if minus then s[1..] else s, 10)
    case None => None
    case Some(n) => var size: int := n; Some(if minus then -size else size)
  }

  predicate LimitInRange(n: int) { n == -1 || 1 <= n <= MAX_CONNECTION_LIMIT }

  /** `-0` is not -1, and neither it nor 0 is a limit. */
  function ReadLimit(s: string): Option<int> {
    match WholeNumber(s) case None => None case Some(n) => if LimitInRange(n) then Some(n) else None
  }

  /** The flag, and what stands after its first `=`. */
  function SplitFlag(arg: string): (string, Option<string>) {
    var at := IndexOf(arg, "=", 0);
    if at < 0 then (arg, None) else (arg[..at], Some(arg[at + 1..]))
  }

  predicate Dashed(s: string) { "--" <= s }

  /** The value of the flag at the head of `argv`, and how many arguments it takes up. */
  function ValueOf(argv: seq<string>): Option<(string, nat)>
    requires argv != []
    ensures ValueOf(argv).Some? ==> 1 <= ValueOf(argv).value.1 <= |argv|
  {
    var inline := SplitFlag(argv[0]).1;
    if inline.Some? then Some((inline.value, 1))
    else if |argv| == 1 || Dashed(argv[1]) then None
    else Some((argv[1], 2))
  }

  /** What has been read: the arguments so far, and the flags seen. */
  datatype Reading = Reading(args: Args, seen: set<string>)

  type Step = Result<(Reading, nat), ArgError>

  function Took(args: Args, r: Reading, flag: string, used: nat): Step { Ok((Reading(args, r.seen + {flag}), used)) }

  /** A flag that takes a value: `--retire-except` a second retire mode refuses. */
  function ReadValued(flag: string, value: Option<(string, nat)>, schema: string, r: Reading): (step: Step)
    ensures step.Ok? ==> value.Some? && step.value.1 == value.value.1
  {
    if flag == "--connection-limit" then
      if value.None? || ReadLimit(value.value.0).None? then Err(BadLimit)
      else Took(r.args.(connectionLimit := ReadLimit(value.value.0).value), r, flag, value.value.1)
    else if flag == "--verify-host" then
      if value.None? || !IsHost(value.value.0) then Err(BadHost)
      else Took(r.args.(verifyHost := Some(value.value.0)), r, flag, value.value.1)
    else if value.None? then Err(NeedsValue(flag))
    else if !NamesLogin(schema, value.value.0) then Err(NotAKitLogin(flag, value.value.0))
    else if flag == "--login" then Took(r.args.(login := value.value.0), r, flag, value.value.1)
    else if r.args.retire.Some? then Err(RetireTwice)
    else Took(r.args.(retire := Some(Some(value.value.0))), r, flag, value.value.1)
  }

  function ReadSwitch(flag: string, inline: Option<string>, r: Reading): (step: Step)
    ensures step.Ok? ==> step.value.1 == 1
  {
    if inline.Some? then Err(TakesNoValue(flag))
    else if flag == "--force" then Took(r.args.(force := true), r, flag, 1)
    else if flag == "--allow-remote" then Took(r.args.(allowRemote := true), r, flag, 1)
    else if flag == "--plaintext-password" then Took(r.args.(plaintextPassword := true), r, flag, 1)
    else if r.args.retire.Some? then Err(RetireTwice)
    else Took(r.args.(retire := Some(None)), r, flag, 1)
  }

  const VALUED := ["--login", "--retire-except", "--connection-limit", "--verify-host"]
  const SWITCHES := ["--retire-all", "--force", "--allow-remote", "--plaintext-password"]

  /** Reads the flag at the head of `argv`. */
  function ReadFlag(argv: seq<string>, schema: string, r: Reading): (step: Step)
    requires argv != []
    ensures step.Ok? ==> 1 <= step.value.1 <= |argv|
  {
    var (flag, inline) := SplitFlag(argv[0]);
    if flag in VALUED then ReadValued(flag, ValueOf(argv), schema, r)
    else if flag in SWITCHES then ReadSwitch(flag, inline, r)
    else Err(Unknown(flag))
  }

  function Among(flags: seq<string>, seen: set<string>): seq<string> {
    if flags == [] then [] else (if flags[0] in seen then [flags[0]] else []) + Among(flags[1..], seen)
  }

  function Finish(r: Reading): Result<Args, ArgError> {
    if r.args.retire.Some? then
      var creating := Among(CREATE_FLAGS, r.seen);
      if creating != [] then Err(NotWithRetire(creating)) else Ok(r.args)
    else if r.args.force then Err(ForceAlone)
    else Ok(r.args)
  }

  function ParseFrom(argv: seq<string>, schema: string, r: Reading): Result<Args, ArgError>
    decreases |argv|
  {
    if argv == [] then Finish(r)
    else
      match ReadFlag(argv, schema, r)
      case Err(e) => Err(e)
      case Ok((next, used)) => ParseFrom(argv[used..], schema, next)
  }

  function Parse(argv: seq<string>, schema: string): Result<Args, ArgError> {
    ParseFrom(argv, schema, Reading(Defaults(schema), {}))
  }

  method ParseRuntimeLoginArgs(argv: seq<string>, schema: string) returns (parsed: Result<Args, ArgError>)
    ensures parsed == Parse(argv, schema)
  {
    hide ReadFlag, ValueOf, SplitFlag;
    var args := Defaults(schema);
    var seen: set<string> := {};
    var i := 0;
    while i < |argv|
      invariant i <= |argv|
      invariant Parse(argv, schema) == ParseFrom(argv[i..], schema, Reading(args, seen))
    {
      match ReadFlag(argv[i..], schema, Reading(args, seen)) {
        case Err(e) => return Err(e);
        case Ok((next, used)) =>
          assert argv[i..][used..] == argv[i + used..];
          args, seen, i := next.args, next.seen, i + used;
      }
    }
    assert argv[|argv|..] == [];
    parsed := Finish(Reading(args, seen));
  }

  // ---------------------------------------------------------------------------
  //  What is accepted.
  // ---------------------------------------------------------------------------

  /** A record the command can mean. */
  predicate Meant(schema: string, a: Args) {
    && NamesLogin(schema, a.login) && LimitInRange(a.connectionLimit)
    && (a.verifyHost.Some? ==> IsHost(a.verifyHost.value))
    && (a.retire.Some? && a.retire.value.Some? ==> NamesLogin(schema, a.retire.value.value))
    && (a.force ==> a.retire.Some?)
    && (a.retire.Some? ==>
          && a.login == DefaultLoginName(schema) && a.connectionLimit == -1
          && a.verifyHost == None && !a.plaintextPassword)
  }

  /** What each flag not seen has left alone. */
  predicate InStep(schema: string, r: Reading) {
    && NamesLogin(schema, r.args.login) && LimitInRange(r.args.connectionLimit)
    && (r.args.verifyHost.Some? ==> IsHost(r.args.verifyHost.value))
    && (r.args.retire.Some? && r.args.retire.value.Some? ==> NamesLogin(schema, r.args.retire.value.value))
    && ("--login" !in r.seen ==> r.args.login == DefaultLoginName(schema))
    && ("--connection-limit" !in r.seen ==> r.args.connectionLimit == -1)
    && ("--verify-host" !in r.seen ==> r.args.verifyHost == None)
    && ("--plaintext-password" !in r.seen ==> !r.args.plaintextPassword)
  }

  lemma {:induction false} ReadValuedInStep(flag: string, value: Option<(string, nat)>, schema: string, r: Reading)
    requires InStep(schema, r) && flag in VALUED
    ensures ReadValued(flag, value, schema, r).Ok? ==> InStep(schema, ReadValued(flag, value, schema, r).value.0)
  {
    hide NamesLogin, IsHost, ReadLimit;
    LimitsInRange();
  }

  lemma ReadSwitchInStep(flag: string, inline: Option<string>, schema: string, r: Reading)
    requires InStep(schema, r)
    ensures ReadSwitch(flag, inline, r).Ok? ==> InStep(schema, ReadSwitch(flag, inline, r).value.0)
  {
    hide NamesLogin, IsHost, LimitInRange, DefaultLoginName;
    var step := ReadSwitch(flag, inline, r);
    if step.Ok? {
      assert step.value.0.seen == r.seen + {flag};
      assert step.value.0.args.plaintextPassword ==> r.args.plaintextPassword || flag == "--plaintext-password";
      assert step.value.0.args == r.args.(
          force := step.value.0.args.force, allowRemote := step.value.0.args.allowRemote,
          plaintextPassword := step.value.0.args.plaintextPassword, retire := step.value.0.args.retire);
    }
  }

  lemma {:induction false} ReadFlagInStep(argv: seq<string>, schema: string, r: Reading)
    requires argv != [] && InStep(schema, r)
    ensures ReadFlag(argv, schema, r).Ok? ==> InStep(schema, ReadFlag(argv, schema, r).value.0)
  {
    hide InStep, SplitFlag, ValueOf, ReadValued, ReadSwitch;
    var (flag, inline) := SplitFlag(argv[0]);
    if flag in VALUED {
      ReadValuedInStep(flag, ValueOf(argv), schema, r);
    } else if flag in SWITCHES {
      ReadSwitchInStep(flag, inline, schema, r);
    }
  }

  lemma LimitsInRange()
    ensures forall s :: ReadLimit(s).Some? ==> LimitInRange(ReadLimit(s).value)
  {
  }

  lemma {:induction false} ParseFromMeant(argv: seq<string>, schema: string, r: Reading)
    requires InStep(schema, r)
    ensures ParseFrom(argv, schema, r).Ok? ==> Meant(schema, ParseFrom(argv, schema, r).value)
    decreases |argv|
  {
    hide ReadFlag, NamesLogin, IsHost;
    if argv == [] {
      if Among(CREATE_FLAGS, r.seen) == [] {
        NoneAmong(CREATE_FLAGS, r.seen);
        CreateFlags();
      }
    } else {
      ReadFlagInStep(argv, schema, r);
      if ReadFlag(argv, schema, r).Ok? {
        var (next, used) := ReadFlag(argv, schema, r).value;
        ParseFromMeant(argv[used..], schema, next);
      }
    }
  }

  lemma {:induction false} NoneAmong(flags: seq<string>, seen: set<string>)
    requires Among(flags, seen) == []
    ensures forall f | f in flags :: f !in seen
  {
    if flags != [] {
      assert flags == [flags[0]] + flags[1..];
      NoneAmong(flags[1..], seen);
    }
  }

  lemma CreateFlags()
    ensures "--login" in CREATE_FLAGS && "--connection-limit" in CREATE_FLAGS && "--verify-host" in CREATE_FLAGS
            && "--plaintext-password" in CREATE_FLAGS
  {
  }

  /** The default login, or a kit login: the schema, `_app_`, one to 24 lower-case letters or digits, 63 bytes. */
  ghost predicate KitLogin(schema: string, name: string) {
    || name == schema + "_app"
    || exists suffix: string ::
         && name == schema + "_app_" + suffix && 1 <= |suffix| <= 24
         && (forall c | c in suffix :: 'a' <= c <= 'z' || '0' <= c <= '9') && |Utf8(name)| <= 63
  }

  /** Letters, digits, dots and hyphens. */
  predicate HostText(host: string) {
    && 1 <= |host| <= 253
    && forall c | c in host :: 'A' <= c <= 'Z' || 'a' <= c <= 'z' || '0' <= c <= '9' || c in ".-"
  }

  /** What the command can mean, spelled out: with `ArgsRoundTrip`, exactly what it accepts. */
  lemma {:induction false} MeantReads(schema: string, a: Args)
    ensures Meant(schema, a)
       <==> && KitLogin(schema, a.login)
            && (a.connectionLimit == -1 || 1 <= a.connectionLimit <= 100 * 1000)
            && (a.verifyHost.Some? ==> HostText(a.verifyHost.value))
            && (a.force ==> a.retire != None)
            && (a.retire.Some? ==>
                  && (a.retire.value.Some? ==> KitLogin(schema, a.retire.value.value))
                  && a.login == schema + "_app" && a.connectionLimit == -1
                  && a.verifyHost == None && !a.plaintextPassword)
  {
    hide IsKitLoginName, Utf8, IsHost, KitLogin, HostText;
    LoginIs(schema, a.login);
    if a.retire.Some? && a.retire.value.Some? {
      LoginIs(schema, a.retire.value.value);
    }
    if a.verifyHost.Some? {
      HostIs(a.verifyHost.value);
    }
  }

  lemma LoginIs(schema: string, name: string)
    ensures NamesLogin(schema, name) <==> KitLogin(schema, name)
    ensures DefaultLoginName(schema) == schema + "_app"
  {
    hide IsKitLoginName, Utf8;
    NamesAre(schema, name);
  }

  lemma HostIs(host: string)
    ensures IsHost(host) <==> HostText(host)
  {
  }

  predicate IsCreateFlag(arg: string) { SplitFlag(arg).0 in CREATE_FLAGS }

  /** Reading the flag at the head marks it as seen, keeps the others, and passes over no other flag. */
  lemma {:induction false} ReadFlagSees(argv: seq<string>, schema: string, r: Reading)
    requires argv != [] && ReadFlag(argv, schema, r).Ok?
    ensures var (next, used) := ReadFlag(argv, schema, r).value;
            && next.seen == r.seen + {SplitFlag(argv[0]).0}
            && forall arg | arg in argv[1..used] :: !Dashed(arg)
  {
    hide SplitFlag, Dashed, NamesLogin, ReadLimit, IsHost;
    var used := ReadFlag(argv, schema, r).value.1;
    if used == 2 {
      assert argv[1..2] == [argv[1]];
    }
  }

  lemma CreateFlagDashed(arg: string)
    requires IsCreateFlag(arg)
    ensures Dashed(arg)
  {
    hide IndexOf;
    var flag := SplitFlag(arg).0;
    CreateFlagsDashed();
    assert flag <= arg && flag[..2] == arg[..2];
  }

  lemma CreateFlagsDashed()
    ensures forall f | f in CREATE_FLAGS :: Dashed(f)
  {
  }

  /** What is accepted with a retire mode has seen no creating flag, and the rest of the line holds none. */
  lemma {:induction false} RetireSeesNone(argv: seq<string>, schema: string, r: Reading)
    ensures ParseFrom(argv, schema, r).Ok? && ParseFrom(argv, schema, r).value.retire.Some? ==>
              && (forall f | f in CREATE_FLAGS :: f !in r.seen)
              && (forall arg | arg in argv :: !IsCreateFlag(arg))
    decreases |argv|
  {
    hide ReadFlag, IsCreateFlag, Dashed;
    if argv == [] {
      if Among(CREATE_FLAGS, r.seen) == [] {
        NoneAmong(CREATE_FLAGS, r.seen);
      }
    } else if ReadFlag(argv, schema, r).Ok? {
      var (next, used) := ReadFlag(argv, schema, r).value;
      RetireSeesNone(argv[used..], schema, next);
      ReadFlagSees(argv, schema, r);
      assert argv == [argv[0]] + argv[1..used] + argv[used..];
      if ParseFrom(argv, schema, r).Ok? && ParseFrom(argv, schema, r).value.retire.Some? {
        HeadNotCreate(argv[0], next.seen);
        forall arg | arg in argv[1..used] ensures !IsCreateFlag(arg) {
          if IsCreateFlag(arg) {
            CreateFlagDashed(arg);
          }
        }
      }
    }
  }

  lemma HeadNotCreate(arg: string, seen: set<string>)
    requires SplitFlag(arg).0 in seen && forall f | f in CREATE_FLAGS :: f !in seen
    ensures !IsCreateFlag(arg)
  {
  }

  /**
    * Whatever was typed, an accepted record is one the command can mean; one with a retire mode had no creating flag.
    */
  lemma AcceptedIsMeant(argv: seq<string>, schema: string)
    ensures Parse(argv, schema).Ok? ==> Meant(schema, Parse(argv, schema).value)
    ensures Parse(argv, schema).Ok? && Parse(argv, schema).value.retire.Some? ==>
              forall arg | arg in argv :: !IsCreateFlag(arg)
  {
    hide ParseFrom, IsCreateFlag;
    ParseFromMeant(argv, schema, Reading(Defaults(schema), {}));
    RetireSeesNone(argv, schema, Reading(Defaults(schema), {}));
  }

  // ---------------------------------------------------------------------------
  //  Both forms of a value.
  // ---------------------------------------------------------------------------

  predicate Plain(f: string) { '=' !in f && Dashed(f) }

  lemma FlagsArePlain()
    ensures forall f | f in VALUED || f in SWITCHES :: '=' !in f && Dashed(f)
  {
  }

  lemma SplitPlain(flag: string, value: string)
    requires '=' !in flag
    ensures SplitFlag(flag) == (flag, None)
    ensures SplitFlag(flag + "=" + value) == (flag, Some(value))
  {
    var s := flag + "=" + value;
    forall k: nat | k < |flag| ensures !MatchesAt(s, "=", k) && !MatchesAt(flag, "=", k) {
      assert s[k..k + 1] == [flag[k]] && flag[k..k + 1] == [flag[k]] && flag[k] in flag;
    }
    IndexOfFirst(flag, "=", 0);
    assert s[|flag|..|flag| + 1] == "=";
    IndexOfIs(s, "=", 0, |flag|);
    assert s[..|flag|] == flag && s[|flag| + 1..] == value;
  }

  lemma ReadInline(flag: string, value: string, rest: seq<string>, schema: string, r: Reading)
    requires flag in VALUED
    ensures ReadFlag([flag + "=" + value] + rest, schema, r) == ReadValued(flag, Some((value, 1)), schema, r)
  {
    hide SplitFlag, ReadValued, ReadSwitch;
    FlagsArePlain();
    SplitPlain(flag, value);
  }

  lemma ReadSpaced(flag: string, value: string, rest: seq<string>, schema: string, r: Reading)
    requires flag in VALUED && !Dashed(value)
    ensures ReadFlag([flag, value] + rest, schema, r) == ReadValued(flag, Some((value, 2)), schema, r)
  {
    hide SplitFlag, ReadValued, ReadSwitch, Dashed;
    FlagsArePlain();
    SplitPlain(flag, "");
    assert ([flag, value] + rest)[0] == flag && ([flag, value] + rest)[1] == value;
  }

  /** A value is read alike however many arguments its flag takes up. */
  lemma ReadSame(flag: string, value: string, m: nat, n: nat, schema: string, r: Reading)
    ensures var a, b := ReadValued(flag, Some((value, m)), schema, r), ReadValued(flag, Some((value, n)), schema, r);
            (a.Err? ==> a == b) && (a.Ok? ==> b.Ok? && a.value.0 == b.value.0 && a.value.1 == m && b.value.1 == n)
  {
  }

  lemma FormsAgreeHere(flag: string, value: string, post: seq<string>, schema: string, r: Reading)
    requires flag in VALUED && !Dashed(value)
    ensures ParseFrom([flag, value] + post, schema, r) == ParseFrom([flag + "=" + value] + post, schema, r)
  {
    hide ReadFlag, ReadValued, Finish, Dashed;
    ReadInline(flag, value, post, schema, r);
    ReadSpaced(flag, value, post, schema, r);
    ReadSame(flag, value, 1, 2, schema, r);
    assert ([flag, value] + post)[2..] == post && ([flag + "=" + value] + post)[1..] == post;
  }

  lemma DashedStays(flag: string, value: string)
    requires Dashed(flag)
    ensures Dashed(flag + "=" + value)
  {
  }

  /**
    * What the flag at the head takes up depends on no more than one argument after it, and on that only when
    * undashed.
    */
  lemma ReadAhead(pre: seq<string>, x: seq<string>, y: seq<string>, schema: string, r: Reading)
    requires pre != [] && x != [] && y != [] && Dashed(x[0]) && Dashed(y[0])
    ensures ReadFlag(pre + x, schema, r) == ReadFlag(pre + y, schema, r)
    ensures ReadFlag(pre + x, schema, r).Ok? ==> ReadFlag(pre + x, schema, r).value.1 <= |pre|
  {
  }

  /** `--flag value` and `--flag=value` parse alike anywhere on the line, for a value not starting with two dashes. */
  lemma {:induction false} FormsAgree(pre: seq<string>, flag: string, value: string, post: seq<string>,
                                      schema: string, r: Reading)
    requires flag in VALUED && !Dashed(value)
    ensures ParseFrom(pre + ([flag, value] + post), schema, r)
         == ParseFrom(pre + ([flag + "=" + value] + post), schema, r)
    decreases |pre|
  {
    hide ReadFlag, Finish, Dashed;
    var x, y := [flag, value] + post, [flag + "=" + value] + post;
    if pre == [] {
      assert pre + x == x && pre + y == y;
      FormsAgreeHere(flag, value, post, schema, r);
    } else {
      FlagsArePlain();
      DashedStays(flag, value);
      ReadAhead(pre, x, y, schema, r);
      if ReadFlag(pre + x, schema, r).Ok? {
        var (next, used) := ReadFlag(pre + x, schema, r).value;
        assert (pre + x)[used..] == pre[used..] + x && (pre + y)[used..] == pre[used..] + y;
        FormsAgree(pre[used..], flag, value, post, schema, next);
      }
    }
  }

  // ---------------------------------------------------------------------------
  //  Printing a record and parsing it.
  // ---------------------------------------------------------------------------

  function PrintLimit(n: int): string
    requires LimitInRange(n)
  {
    if n == -1 then "-1" else Digits(n, 10)
  }

  function PrintRetire(keep: Option<string>): seq<string> {
    match keep case None => ["--retire-all"] case Some(login) => ["--retire-except" + "=" + login]
  }

  function PrintHost(host: Option<string>): seq<string> {
    match host case None => [] case Some(name) => ["--verify-host" + "=" + name]
  }

  function PrintSwitch(flag: string, on: bool): seq<string> { if on then [flag] else [] }

  function Printed(a: Args): seq<string>
    requires LimitInRange(a.connectionLimit)
  {
    if a.retire.Some? then
      PrintRetire(a.retire.value) + (PrintSwitch("--force", a.force) + PrintSwitch("--allow-remote", a.allowRemote))
    else
      ["--login" + "=" + a.login]
      + (["--connection-limit" + "=" + PrintLimit(a.connectionLimit)]
         + (PrintHost(a.verifyHost)
            + (PrintSwitch("--plaintext-password", a.plaintextPassword)
               + PrintSwitch("--allow-remote", a.allowRemote))))
  }

  lemma LimitRead(n: int)
    requires LimitInRange(n)
    ensures ReadLimit(PrintLimit(n)) == Some(n)
  {
    if n == -1 {
      assert "-1"[1..] == "1" && Value("1", 10) == Some(1);
    } else {
      ValueOfDigits(n, 10);
      DigitsAreDigits(n, 10);
      assert Digits(n, 10)[0] in Digits(n, 10);
    }
  }

  lemma {:induction false} ParseValued(flag: string, value: string, rest: seq<string>, schema: string, r: Reading,
                                       args: Args)
    requires flag in VALUED && ReadValued(flag, Some((value, 1)), schema, r) == Took(args, r, flag, 1)
    ensures ParseFrom([flag + "=" + value] + rest, schema, r) == ParseFrom(rest, schema, Reading(args, r.seen + {flag}))
  {
    hide ReadFlag, ReadValued, Finish;
    ReadInline(flag, value, rest, schema, r);
    assert ([flag + "=" + value] + rest)[1..] == rest;
  }

  lemma {:induction false} ParseSwitch(flag: string, rest: seq<string>, schema: string, r: Reading, args: Args)
    requires flag in SWITCHES && flag !in VALUED && ReadSwitch(flag, None, r) == Took(args, r, flag, 1)
    ensures ParseFrom([flag] + rest, schema, r) == ParseFrom(rest, schema, Reading(args, r.seen + {flag}))
  {
    hide ReadValued, ReadSwitch, Finish, SplitFlag;
    FlagsArePlain();
    SplitPlain(flag, "");
    assert ([flag] + rest)[1..] == rest;
  }

  /** A switch printed when it is on, and read. */
  lemma SwitchRead(flag: string, on: bool, rest: seq<string>, schema: string, r: Reading, args: Args)
    requires flag in SWITCHES && flag !in VALUED
    requires on ==> ReadSwitch(flag, None, r) == Took(args, r, flag, 1)
    requires !on ==> args == r.args
    ensures ParseFrom(PrintSwitch(flag, on) + rest, schema, r)
         == ParseFrom(rest, schema, Reading(args, if on then r.seen + {flag} else r.seen))
  {
    hide ParseFrom, ReadSwitch;
    if on {
      ParseSwitch(flag, rest, schema, r, args);
    } else {
      assert [] + rest == rest;
    }
  }

  lemma SwitchNames()
    ensures "--force" in SWITCHES && "--force" !in VALUED && "--allow-remote" in SWITCHES && "--allow-remote" !in VALUED
    ensures "--plaintext-password" in SWITCHES && "--plaintext-password" !in VALUED
    ensures "--retire-all" in SWITCHES && "--retire-all" !in VALUED
    ensures "--login" in VALUED && "--retire-except" in VALUED && "--connection-limit" in VALUED
       && "--verify-host" in VALUED
  {
  }

  lemma {:induction false} RetireRoundTrip(schema: string, a: Args)
    requires Meant(schema, a) && a.retire.Some?
    ensures Parse(Printed(a), schema) == Ok(a)
  {
    hide ParseFrom, NamesLogin, DefaultLoginName;
    SwitchNames();
    var r := Reading(Defaults(schema), {});
    var b := r.args.(retire := a.retire);
    var c := b.(force := a.force);
    var flag := if a.retire.value.None? then "--retire-all" else "--retire-except";
    var rest := PrintSwitch("--force", a.force) + PrintSwitch("--allow-remote", a.allowRemote);
    if a.retire.value.None? {
      ParseSwitch(flag, rest, schema, r, b);
    } else {
      ParseValued(flag, a.retire.value.value, rest, schema, r, b);
    }
    var r1 := Reading(b, {flag});
    assert {} + {flag} == {flag};
    SwitchRead("--force", a.force, PrintSwitch("--allow-remote", a.allowRemote), schema, r1, c);
    var r2 := Reading(c, if a.force then {flag} + {"--force"} else {flag});
    assert PrintSwitch("--allow-remote", a.allowRemote) + [] == PrintSwitch("--allow-remote", a.allowRemote);
    SwitchRead("--allow-remote", a.allowRemote, [], schema, r2, a);
    NothingLeft(schema, Reading(a, if a.allowRemote then r2.seen + {"--allow-remote"} else r2.seen));
    NoCreateFlag(if a.allowRemote then r2.seen + {"--allow-remote"} else r2.seen);
  }

  lemma NothingLeft(schema: string, r: Reading)
    ensures ParseFrom([], schema, r) == Finish(r)
  {
  }

  lemma {:induction false} AmongNone(flags: seq<string>, seen: set<string>)
    requires forall f | f in flags :: f !in seen
    ensures Among(flags, seen) == []
  {
    if flags != [] {
      assert flags[0] in flags && forall f | f in flags[1..] :: f in flags;
      AmongNone(flags[1..], seen);
    }
  }

  lemma NoCreateFlag(seen: set<string>)
    requires seen <= {"--retire-all", "--retire-except", "--force", "--allow-remote"}
    ensures Among(CREATE_FLAGS, seen) == []
  {
    assert "--login" !in seen && "--connection-limit" !in seen && "--verify-host" !in seen
      && "--plaintext-password" !in seen;
    AmongNone(CREATE_FLAGS, seen);
  }

  lemma CreateRoundTrip(schema: string, a: Args)
    requires Meant(schema, a) && a.retire.None?
    ensures Parse(Printed(a), schema) == Ok(a)
  {
    hide ParseFrom, NamesLogin, DefaultLoginName, IsHost, ReadLimit, LimitInRange;
    SwitchNames();
    LimitRead(a.connectionLimit);
    var r := Reading(Defaults(schema), {});
    var last := PrintSwitch("--allow-remote", a.allowRemote);
    var tail := PrintSwitch("--plaintext-password", a.plaintextPassword) + last;
    var host := PrintHost(a.verifyHost) + tail;
    var limit := ["--connection-limit" + "=" + PrintLimit(a.connectionLimit)] + host;
    var b := r.args.(login := a.login);
    ParseValued("--login", a.login, limit, schema, r, b);
    var r1 := Reading(b, r.seen + {"--login"});
    var c := b.(connectionLimit := a.connectionLimit);
    ParseValued("--connection-limit", PrintLimit(a.connectionLimit), host, schema, r1, c);
    var r2 := Reading(c, r1.seen + {"--connection-limit"});
    var d := c.(verifyHost := a.verifyHost);
    var r3 := if a.verifyHost.Some? then Reading(d, r2.seen + {"--verify-host"}) else r2;
    HostRead(a.verifyHost, tail, schema, r2);
    var e := d.(plaintextPassword := a.plaintextPassword);
    SwitchRead("--plaintext-password", a.plaintextPassword, last, schema, r3, e);
    var r4 := Reading(e, if a.plaintextPassword then r3.seen + {"--plaintext-password"} else r3.seen);
    assert last + [] == last;
    SwitchRead("--allow-remote", a.allowRemote, [], schema, r4, a);
    NothingLeft(schema, Reading(a, if a.allowRemote then r4.seen + {"--allow-remote"} else r4.seen));
  }

  lemma HostRead(host: Option<string>, rest: seq<string>, schema: string, r: Reading)
    requires host.Some? ==> IsHost(host.value)
    requires r.args.verifyHost == None
    ensures ParseFrom(PrintHost(host) + rest, schema, r)
         == ParseFrom(rest, schema,
                      if host.Some? then Reading(r.args.(verifyHost := host), r.seen + {"--verify-host"}) else r)
  {
    hide ParseFrom, IsHost;
    SwitchNames();
    if host.Some? {
      ParseValued("--verify-host", host.value, rest, schema, r, r.args.(verifyHost := host));
    } else {
      assert [] + rest == rest;
    }
  }

  /** Printing any record the command can mean, and parsing it, gives the record back. */
  lemma ArgsRoundTrip(schema: string, a: Args)
    requires Meant(schema, a)
    ensures Parse(Printed(a), schema) == Ok(a)
  {
    hide Parse, Printed;
    if a.retire.Some? {
      RetireRoundTrip(schema, a);
    } else {
      CreateRoundTrip(schema, a);
    }
  }
}
