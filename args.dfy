/**
 * The command-line parser (src/args.rs): flags choose the front end, -d sets the
 * frame delay from the next argument, everything else is a level path.
 */
module Args {
  import opened Wrappers

  const U64_MAX := 0xFFFF_FFFF_FFFF_FFFF

  /** Rust's u64. */
  type U64 = n: nat | n <= U64_MAX

  datatype AppMode = Tui | Gui

  datatype Config = Config(delay: U64, appMode: AppMode, levelPaths: seq<string>)

  /** How Config::parse ends: a configuration, an error message, or the help text
      (printed before the process exits, which is left out). */
  datatype ParseOutcome = Parsed(config: Config) | Failed(message: string) | Help

  /** Config::default: a 1000 ms delay, the terminal front end, no level paths. */
  function DefaultConfig(): Config
  {
    Config(1000, Tui, [])
  }

  // ---------------------------------------------------------------------------
  // Decimal numbers (u64's FromStr)
  // ---------------------------------------------------------------------------

  predicate IsDigit(c: char)
  {
    '0' <= c <= '9'
  }

  predicate AllDigits(s: string)
  {
    forall i :: 0 <= i < |s| ==> IsDigit(s[i])
  }

  /** The value of a string of decimal digits, most significant first. */
  function DigitsValue(s: string): nat
    requires AllDigits(s)
  {
    if s == [] then 0 else DigitsValue(s[..|s| - 1]) * 10 + (s[|s| - 1] as int - '0' as int)
  }

  /** u64's FromStr: one or more decimal digits after an optional '+', whose value fits
      in 64 bits. */
  function ParseU64(s: string): (r: Option<U64>)
    ensures r.Some? ==> s != [] && s != "+"
    ensures r.Some? ==> forall i :: 0 <= i < |s| ==> IsDigit(s[i]) || (i == 0 && s[i] == '+')
  {
    var digits := if |s| > 0 && s[0] == '+' then s[1..] else s;
    if digits != [] && AllDigits(digits) && DigitsValue(digits) <= U64_MAX then
      assert forall i :: 1 <= i < |s| && s[0] == '+' ==> s[i] == digits[i - 1];
      Some(DigitsValue(digits))
    else None
  }

  /** The decimal digit for d. */
  function Digit(d: nat): (c: char)
    requires d < 10
    ensures IsDigit(c) && c as int - '0' as int == d
  {
    ('0' as int + d) as char
  }

  /** n written in decimal, as u64's Display writes it. */
  function Decimal(n: nat): (s: string)
    ensures s != [] && AllDigits(s)
  {
    if n < 10 then [Digit(n)] else Decimal(n / 10) + [Digit(n % 10)]
  }

  lemma {:induction false} DecimalValue(n: nat)
    ensures DigitsValue(Decimal(n)) == n
  {
    if n >= 10 {
      var s := Decimal(n / 10);
      DecimalValue(n / 10);
      assert (s + [Digit(n % 10)])[..|s|] == s;
    }
  }

  /** Every u64 written in decimal, with or without a leading '+', parses back to itself. */
  lemma ParseDecimal(n: U64)
    ensures ParseU64(Decimal(n)) == Some(n)
    ensures ParseU64("+" + Decimal(n)) == Some(n)
  {
    DecimalValue(n);
    assert ("+" + Decimal(n))[1..] == Decimal(n);
  }

  /** The empty string, a lone sign, a minus sign and a value past u64::MAX are refused. */
  lemma ParseRejects(n: nat)
    requires n > U64_MAX
    ensures ParseU64("") == None && ParseU64("+") == None && ParseU64("-1") == None
    ensures ParseU64(Decimal(n)) == None
  {
    DecimalValue(n);
    assert !IsDigit('-');
    assert "-1"[0] == '-';
  }

  // ---------------------------------------------------------------------------
  // Config::parse
  // ---------------------------------------------------------------------------

  /** The parse_num closure: the option's value parsed as a number, or an error naming
      the option when the value is absent or not a number. */
  function ParseNum(arg: Option<string>, name: string): Result<U64, string>
  {
    match arg
    case None => Err("Missing `" + name + "` value!")
    case Some(s) =>
      match ParseU64(s)
      case None => Err("Invalid `" + name + "` value!")
      case Some(n) => Ok(n)
  }

  predicate IsHelp(arg: string) { arg == "-h" || arg == "--help" }
  predicate IsGui(arg: string) { arg == "-g" || arg == "--gui" }
  predicate IsTui(arg: string) { arg == "-t" || arg == "--tui" }
  predicate IsDelay(arg: string) { arg == "-d" || arg == "--delay" }

  /** The check after the loop: at least one level path. */
  function Finish(cfg: Config): ParseOutcome
  {
    if cfg.levelPaths != [] then Parsed(cfg) else Failed("Provide at least one level path!")
  }

  /** The loop of Config::parse over the remaining arguments, from cfg. */
  function Scan(cfg: Config, args: seq<string>): ParseOutcome
    decreases |args|
  {
    if args == [] then Finish(cfg)
    else
      var arg := args[0];
      if IsHelp(arg) then Help
      else if IsGui(arg) then Scan(cfg.(appMode := Gui), args[1..])
      else if IsTui(arg) then Scan(cfg.(appMode := Tui), args[1..])
      else if IsDelay(arg) then
        match ParseNum(if |args| > 1 then Some(args[1]) else None, "delay")
        case Err(msg) => Failed(msg)
        case Ok(n) => Scan(cfg.(delay := n), args[2..])
      else Scan(cfg.(levelPaths := cfg.levelPaths + [arg]), args[1..])
  }

  /** Config::parse. */
  function ParseArgs(args: seq<string>): ParseOutcome
  {
    Scan(DefaultConfig(), args)
  }

  /** Config::parse as the source writes it, a loop over the arguments. */
  method Parse(args: seq<string>) returns (r: ParseOutcome)
    ensures r == ParseArgs(args)
  {
    var cfg := DefaultConfig();
    var i := 0;
    while i < |args|
      invariant 0 <= i <= |args|
      invariant Scan(cfg, args[i..]) == ParseArgs(args)
      decreases |args| - i
    {
      var arg := args[i];
      assert args[i..][1..] == args[i + 1..];
      i := i + 1;
      if IsHelp(arg) {
        return Help;
      } else if IsGui(arg) {
        cfg := cfg.(appMode := Gui);
      } else if IsTui(arg) {
        cfg := cfg.(appMode := Tui);
      } else if IsDelay(arg) {
        var next: Option<string> := None;
        if i < |args| {
          next := Some(args[i]);
          assert args[i - 1..][2..] == args[i + 1..];
          i := i + 1;
        }
        var n := ParseNum(next, "delay");
        if n.Err? {
          return Failed(n.error);
        }
        cfg := cfg.(delay := n.value);
      } else {
        cfg := cfg.(levelPaths := cfg.levelPaths + [arg]);
      }
    }
    if cfg.levelPaths == [] {
      return Failed("Provide at least one level path!");
    }
    return Parsed(cfg);
  }

  // ---------------------------------------------------------------------------
  // Properties
  // ---------------------------------------------------------------------------

  /** An argument the loop does not treat as a flag or an option. */
  predicate IsPath(arg: string)
  {
    !IsHelp(arg) && !IsGui(arg) && !IsTui(arg) && !IsDelay(arg)
  }

  /** The mode the last -g or -t names, or m when there is none. */
  function LastMode(args: seq<string>, m: AppMode): AppMode
  {
    if args == [] then m
    else LastMode(args[1..], if IsGui(args[0]) then Gui else if IsTui(args[0]) then Tui else m)
  }

  /** The arguments that are level paths, in order. */
  function Paths(args: seq<string>): seq<string>
  {
    if args == [] then [] else (if IsPath(args[0]) then [args[0]] else []) + Paths(args[1..])
  }

  /** A successful parse always carries a level path. */
  lemma {:induction false} ParsedHasPath(cfg: Config, args: seq<string>)
    ensures Scan(cfg, args).Parsed? ==> |Scan(cfg, args).config.levelPaths| >= 1
    decreases |args|
  {
    if args != [] {
      var arg := args[0];
      if IsHelp(arg) {
      } else if IsGui(arg) {
        ParsedHasPath(cfg.(appMode := Gui), args[1..]);
      } else if IsTui(arg) {
        ParsedHasPath(cfg.(appMode := Tui), args[1..]);
      } else if IsDelay(arg) {
        if |args| > 1 && ParseU64(args[1]).Some? {
          ParsedHasPath(cfg.(delay := ParseU64(args[1]).value), args[2..]);
        }
      } else {
        ParsedHasPath(cfg.(levelPaths := cfg.levelPaths + [arg]), args[1..]);
      }
    }
  }

  /** Without -h and -d, the delay stays, the last mode flag wins and the other
      arguments become the level paths in order; without any path the parse fails. */
  lemma {:induction false} FlagsAndPaths(cfg: Config, args: seq<string>)
    requires forall i :: 0 <= i < |args| ==> !IsHelp(args[i]) && !IsDelay(args[i])
    ensures var paths := cfg.levelPaths + Paths(args);
      Scan(cfg, args) ==
        if paths == [] then Failed("Provide at least one level path!")
        else Parsed(Config(cfg.delay, LastMode(args, cfg.appMode), paths))
    decreases |args|
  {
    if args != [] {
      var arg := args[0];
      var cfg' :=
        if IsGui(arg) then cfg.(appMode := Gui)
        else if IsTui(arg) then cfg.(appMode := Tui)
        else cfg.(levelPaths := cfg.levelPaths + [arg]);
      assert forall i :: 0 <= i < |args[1..]| ==> args[1..][i] == args[i + 1];
      FlagsAndPaths(cfg', args[1..]);
      assert cfg.levelPaths + Paths(args) == cfg'.levelPaths + Paths(args[1..]);
    }
  }

  /** Plain paths give the default configuration with those paths. */
  lemma PathsOnlyDefault(args: seq<string>)
    requires args != [] && forall i :: 0 <= i < |args| ==> IsPath(args[i])
    ensures ParseArgs(args) == Parsed(DefaultConfig().(levelPaths := args))
  {
    FlagsAndPaths(DefaultConfig(), args);
    PathsOfPaths(args);
    LastModeOfPaths(args, Tui);
  }

  lemma {:induction false} PathsOfPaths(args: seq<string>)
    requires forall i :: 0 <= i < |args| ==> IsPath(args[i])
    ensures Paths(args) == args
  {
    if args != [] {
      assert forall i :: 0 <= i < |args[1..]| ==> args[1..][i] == args[i + 1];
      PathsOfPaths(args[1..]);
    }
  }

  lemma {:induction false} LastModeOfPaths(args: seq<string>, m: AppMode)
    requires forall i :: 0 <= i < |args| ==> IsPath(args[i])
    ensures LastMode(args, m) == m
  {
    if args != [] {
      assert forall i :: 0 <= i < |args[1..]| ==> args[1..][i] == args[i + 1];
      LastModeOfPaths(args[1..], m);
    }
  }

  /** -d takes the next argument as the delay: a number sets it, anything else is an
      invalid value, and nothing at all is a missing value. */
  lemma DelayOption(cfg: Config, flag: string, value: string, rest: seq<string>)
    requires IsDelay(flag)
    ensures Scan(cfg, [flag]) == Failed("Missing `delay` value!")
    ensures ParseU64(value).None? ==> Scan(cfg, [flag, value] + rest) == Failed("Invalid `delay` value!")
    ensures ParseU64(value).Some? ==>
      Scan(cfg, [flag, value] + rest) == Scan(cfg.(delay := ParseU64(value).value), rest)
  {
    assert ([flag, value] + rest)[2..] == rest;
  }

  /** A trailing -d after flags and paths is a missing value, whatever came before. */
  lemma {:induction false} TrailingDelay(cfg: Config, args: seq<string>, flag: string)
    requires IsDelay(flag)
    requires forall i :: 0 <= i < |args| ==> !IsHelp(args[i]) && !IsDelay(args[i])
    ensures Scan(cfg, args + [flag]) == Failed("Missing `delay` value!")
    decreases |args|
  {
    if args == [] {
      assert args + [flag] == [flag];
      DelayOption(cfg, flag, "", []);
    } else {
      var arg := args[0];
      var cfg' :=
        if IsGui(arg) then cfg.(appMode := Gui)
        else if IsTui(arg) then cfg.(appMode := Tui)
        else cfg.(levelPaths := cfg.levelPaths + [arg]);
      assert (args + [flag])[1..] == args[1..] + [flag];
      assert forall i :: 0 <= i < |args[1..]| ==> args[1..][i] == args[i + 1];
      TrailingDelay(cfg', args[1..], flag);
    }
  }

  /** -h ends the parse at once, whatever follows. */
  lemma HelpStops(cfg: Config, flag: string, rest: seq<string>)
    requires IsHelp(flag)
    ensures Scan(cfg, [flag] + rest) == Help
  {
  }
}
