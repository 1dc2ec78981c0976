/**
 * The command-line front end in `lib/cli.js`: the command table and its
 * aliases, the option table turned into the two objects the `nopt` parser
 * takes, the column padding of the usage text, and `init`, which hands the
 * parsed flags to the engine. The parser itself is not modelled: its result
 * is an input (`Parsed`).
 */
module CommandLine {
  import opened Js
  import opened Migrate

  // ---------------------------------------------------------------------
  // Commands
  // ---------------------------------------------------------------------

  /** `commands`: each command with its description. */
  const Commands: map<string, string> := map[
    "run" := "Run migrations",
    "create" := "Create a new migration (optional name as [arguments])",
    "dry" := "List what is able to migrate (according to direction and limit)",
    "help" := "Show this usage information",
    "version" := "Show version information"
  ]

  /** `aliases`: other names for two of the commands. */
  const Aliases: map<string, string> := map["status" := "dry", "new" := "create"]

  predicate IsCommand(name: string) {
    name == "run" || name == "create" || name == "dry" || name == "help" || name == "version"
  }

  lemma CommandsAreTheTable(name: string)
    ensures name in Commands <==> IsCommand(name)
    ensures name in Aliases <==> name == "status" || name == "new"
  {
  }

  /**
   * The validation in `command(newCommand)` for a truthy name: an alias is
   * replaced by its command, and whatever is then not a command is refused.
   */
  function ResolveCommand(name: string): (r: Result<string>)
    ensures r.Ok? <==> name in Commands || name in Aliases
    ensures r.Ok? ==> r.value in Commands
    ensures name in Aliases ==> r == Ok(Aliases[name])
    ensures name in Commands ==> r == Ok(name)
    ensures r.Error? ==> r.message == "Unknown command: \"" + name + "\""
  {
    var resolved := if name in Aliases then Aliases[name] else name;
    if resolved in Commands && Commands[resolved] != "" then Ok(resolved)
    else Error("Unknown command: \"" + resolved + "\"")
  }

  /** `status` is `dry` and `new` is `create`; every command stands for itself. */
  lemma AliasesResolve(name: string)
    ensures ResolveCommand("status") == Ok("dry")
    ensures ResolveCommand("new") == Ok("create")
    ensures IsCommand(name) ==> ResolveCommand(name) == Ok(name)
    ensures !IsCommand(name) && name != "status" && name != "new" ==> ResolveCommand(name).Error?
  {
    CommandsAreTheTable(name);
  }

  // ---------------------------------------------------------------------
  // Options
  // ---------------------------------------------------------------------

  /** The `type` of an option: `Boolean` or `Number`. */
  datatype OptionType = BooleanType | NumberType

  /** A `default`: `true` or `0` in the table. */
  datatype Literal = BoolLiteral(b: bool) | NumberLiteral(n: int)

  /**
   * One entry of `options`. `alias` is `""` when the entry has none (the
   * code tests it for truthiness); `kind`, `default` and `value` are `None`
   * when undefined.
   */
  datatype OptionSpec = OptionSpec(kind: Option<OptionType>, default: Option<Literal>, description: string,
                                   alias: string, value: Option<string>)

  /** What `nopt` is told a short option expands to: `'--' + alias` or `['--' + alias, value]`. */
  datatype ShortForm = Expand(flag: string) | ExpandWith(flag: string, value: string)

  /** What `nopt` is told an option's type is: `type` or `[type, default]`. */
  datatype FullForm = TypeOf(kind: Option<OptionType>) | TypeWithDefault(kind: Option<OptionType>, default: Literal)

  /** `options`, in the order of its keys. */
  const Options: seq<(string, OptionSpec)> := [
    ("help", OptionSpec(Some(BooleanType), None, "Show this usage information", "", None)),
    ("version", OptionSpec(Some(BooleanType), None, "Show version information", "", None)),
    ("up", OptionSpec(Some(BooleanType), Some(BoolLiteral(true)), "Set migration direction to up", "", None)),
    ("down", OptionSpec(Some(BooleanType), None, "Set migration direction to down", "", None)),
    ("limit", OptionSpec(Some(NumberType), Some(NumberLiteral(0)), "Limit number of migrations to run", "", None)),
    ("timeout", OptionSpec(Some(NumberType), None, "Set timeout in seconds", "", None)),
    ("one", OptionSpec(None, None, "", "limit", Some("1"))),
    ("u", OptionSpec(None, None, "", "up", None)),
    ("d", OptionSpec(None, None, "", "down", None)),
    ("l", OptionSpec(None, None, "", "limit", None)),
    ("t", OptionSpec(None, None, "", "timeout", None)),
    ("h", OptionSpec(None, None, "", "help", None)),
    ("v", OptionSpec(None, None, "", "version", None))
  ]

  /** The keys of an object are distinct. */
  predicate DistinctKeys(table: seq<(string, OptionSpec)>) {
    forall i, j :: 0 <= i < j < |table| ==> table[i].0 != table[j].0
  }

  lemma OptionKeysDistinct()
    ensures DistinctKeys(Options)
  {
  }

  /** `'--' + alias`, or `['--' + alias, value]` when the entry has a `value`. */
  function ShortFormOf(spec: OptionSpec): ShortForm {
    if spec.value.Some? then ExpandWith("--" + spec.alias, spec.value.value) else Expand("--" + spec.alias)
  }

  /** `type`, or `[type, default]` when the entry has a `default`. */
  function FullFormOf(spec: OptionSpec): FullForm {
    if spec.default.Some? then TypeWithDefault(spec.kind, spec.default.value) else TypeOf(spec.kind)
  }

  /** The keys of the first n entries. */
  function KeysUpTo(table: seq<(string, OptionSpec)>, n: nat): set<string>
    requires n <= |table|
  {
    set i | 0 <= i < n :: table[i].0
  }

  /** The first n entries are placed: an entry with an alias in `short`, one without in `full`. */
  predicate Placed(table: seq<(string, OptionSpec)>, n: nat, short: map<string, ShortForm>, full: map<string, FullForm>)
    requires n <= |table|
  {
    && short.Keys + full.Keys == KeysUpTo(table, n)
    && short.Keys !! full.Keys
    && (forall i :: 0 <= i < n && table[i].1.alias != "" ==>
          table[i].0 in short && short[table[i].0] == ShortFormOf(table[i].1))
    && (forall i :: 0 <= i < n && table[i].1.alias == "" ==>
          table[i].0 in full && full[table[i].0] == FullFormOf(table[i].1))
  }

  /**
   * `getOptionsForNopt()`: every key goes to exactly one of `short` (an
   * entry with an alias) and `full` (one without), with the form the
   * entry's `value` or `default` calls for.
   */
  method GetOptionsForNopt(table: seq<(string, OptionSpec)>)
    returns (short: map<string, ShortForm>, full: map<string, FullForm>)
    requires DistinctKeys(table)
    ensures short.Keys + full.Keys == set i | 0 <= i < |table| :: table[i].0
    ensures short.Keys !! full.Keys
    ensures forall i :: 0 <= i < |table| && table[i].1.alias != "" ==>
      table[i].0 in short && short[table[i].0] == ShortFormOf(table[i].1)
    ensures forall i :: 0 <= i < |table| && table[i].1.alias == "" ==>
      table[i].0 in full && full[table[i].0] == FullFormOf(table[i].1)
  {
    short, full := map[], map[];
    for n := 0 to |table|
      invariant Placed(table, n, short, full)
    {
      var (key, spec) := table[n];
      assert key !in KeysUpTo(table, n);
      assert KeysUpTo(table, n + 1) == KeysUpTo(table, n) + {key};
      if spec.alias != "" {
        short := short[key := ShortFormOf(spec)];
      } else {
        full := full[key := FullFormOf(spec)];
      }
    }
    assert Placed(table, |table|, short, full);
  }

  // ---------------------------------------------------------------------
  // Padding
  // ---------------------------------------------------------------------

  /** `k` spaces. */
  function Spaces(k: nat): (s: string)
    ensures |s| == k && forall i :: 0 <= i < k ==> s[i] == ' '
  {
    if k == 0 then "" else Spaces(k - 1) + " "
  }

  /** The largest length an `Array` may have, 2^32 - 1. */
  const MaxArrayLength: int := TwoTo32 - 1

  /**
   * `pad(text, length)`: `text + new Array(length - text.length).join(' ')`.
   * An array of n empty slots joins to n - 1 spaces; a negative or too
   * large n makes the `Array` constructor throw a `RangeError`.
   */
  function Pad(text: string, length: int): (r: Result<string>)
    ensures r.Ok? <==> |text| <= length <= |text| + MaxArrayLength
    ensures r.Ok? && length > |text| ==> |r.value| == length - 1
    ensures r.Ok? ==> |r.value| >= |text| && r.value[..|text|] == text
    ensures r.Ok? && length == |text| ==> r.value == text
    ensures r.Ok? ==> forall i :: |text| <= i < |r.value| ==> r.value[i] == ' '
  {
    var slots := length - |text|;
    if slots < 0 || slots > MaxArrayLength then Error("Invalid array length")
    else Ok(text + Spaces(if slots == 0 then 0 else slots - 1))
  }

  // ---------------------------------------------------------------------
  // init
  // ---------------------------------------------------------------------

  /** `parsed.up || !parsed.down ? 'up' : 'down'`, an unset flag being false. */
  function DirectionFlag(up: bool, down: bool): (d: string)
    ensures d == "up" || d == "down"
  {
    if up || !down then "up" else "down"
  }

  /** The direction is `down` exactly when `--down` is given and `--up` is not. */
  lemma DirectionFlagDown(up: bool, down: bool)
    ensures DirectionFlag(up, down) == "down" <==> down && !up
    ensures DirectionFlag(up, down) == "up" <==> up || !down
  {
  }

  /** `parsed.limit` as the argument of `limit`: an unset or zero limit is falsy. */
  function LimitArgument(limit: Option<real>): (r: Option<Number>)
    ensures r.Some? <==> limit.Some? && limit.value != 0.0
    ensures r.Some? ==> r.value == Finite(limit.value)
  {
    if limit.None? then None else Argument(Finite(limit.value))
  }

  /** `parsed.timeout * 1000` as the argument of `timeout`: unset gives NaN and zero is falsy. */
  function TimeoutArgument(seconds: Option<real>): (r: Option<Number>)
    ensures r.Some? <==> seconds.Some? && seconds.value != 0.0
    ensures r.Some? ==> r.value == Finite(seconds.value * 1000.0)
  {
    if seconds.None? then None else Argument(Finite(seconds.value * 1000.0))
  }

  /**
   * A positive number of seconds reaches the engine as milliseconds: the
   * `timeout()` getter reports the seconds times 1000, rounded down, or the
   * default when that is 0.
   */
  lemma TimeoutInMilliseconds(seconds: real)
    requires 0.0 < seconds && seconds * 1000.0 < TwoTo31 as real
    ensures TimeoutArgument(Some(seconds)).Some?
    ensures var ms := TimeoutReported(TimeoutStored(TimeoutArgument(Some(seconds)).value));
      ms == if (seconds * 1000.0).Floor == 0 then DefaultTimeout else (seconds * 1000.0).Floor
  {
  }

  /** `--timeout 10` is reported as 10000 ms. */
  lemma TenSeconds()
    ensures TimeoutReported(TimeoutStored(TimeoutArgument(Some(10.0)).value)) == 10000
  {
    TimeoutInMilliseconds(10.0);
  }

  /** What `nopt` returns, as far as `init` reads it; an unset flag is false, an unset number `None`. */
  datatype Parsed = Parsed(remain: seq<string>, version: bool, help: bool, up: bool, down: bool,
                           limit: Option<real>, timeout: Option<real>)

  /** The command-line object, with its fields `_newCommand`, `_showVersion`, `_showHelp` and `migrate`. */
  class Cli {
    /** `_newCommand`; `None` while unset. */
    var command: Option<string>
    var showVersion: bool
    var showHelp: bool
    var engine: Engine?

    constructor ()
      ensures command == None && !showVersion && !showHelp && engine == null
    {
      command, showVersion, showHelp, engine := None, false, false, null;
    }

    /**
     * `command(newCommand)`: a falsy argument (`""` here) reads the command,
     * storing `help` when none is set; a known command or alias is stored as
     * its command; anything else throws and stores nothing.
     */
    method Command(newCommand: string) returns (r: Access<string>)
      modifies this
      ensures showVersion == old(showVersion) && showHelp == old(showHelp) && engine == old(engine)
      ensures newCommand == "" ==> command == Some(old(command).GetOr("help")) && r == Value(command.value)
      ensures newCommand != "" && ResolveCommand(newCommand).Ok? ==>
        command == Some(ResolveCommand(newCommand).value) && r == Chained
      ensures newCommand != "" && ResolveCommand(newCommand).Error? ==>
        command == old(command) && r == Thrown(ResolveCommand(newCommand).message)
    {
      if newCommand != "" {
        var resolved := ResolveCommand(newCommand);
        if resolved.Error? {
          return Thrown(resolved.message);
        }
        command := Some(resolved.value);
        return Chained;
      }
      command := if command.Some? then command else Some("help");
      return Value(command.value);
    }

    /**
     * `init(args)` after `nopt` has parsed the arguments: the first
     * remaining argument is the command, the rest are the engine's
     * arguments, and the flags set the limit, the timeout and the
     * direction. An unknown command throws before anything else is set.
     */
    method Init(parsed: Parsed, migrate: Engine) returns (err: Option<string>)
      requires migrate.Valid()
      modifies this, migrate
      ensures migrate.Valid()
      ensures var first := if parsed.remain == [] then "" else parsed.remain[0];
        if first != "" && ResolveCommand(first).Error? then
          && err == Some(ResolveCommand(first).message)
          && command == old(command) && showVersion == old(showVersion) && showHelp == old(showHelp)
          && engine == old(engine)
          && migrate.direction == old(migrate.direction) && migrate.args == old(migrate.args)
          && migrate.limit == old(migrate.limit) && migrate.timeout == old(migrate.timeout)
        else
          && err == None
          && command == Some(if first == "" then old(command).GetOr("help") else ResolveCommand(first).value)
          && showVersion == parsed.version
          && showHelp == (parsed.help || command.value == "help")
          && engine == migrate
          && migrate.args == Some(if parsed.remain == [] then [] else parsed.remain[1..])
          && migrate.limit == (if LimitArgument(parsed.limit).Some?
                               then LimitStored(LimitArgument(parsed.limit).value) else old(migrate.limit))
          && migrate.timeout == (if TimeoutArgument(parsed.timeout).Some?
                                 then TimeoutStored(TimeoutArgument(parsed.timeout).value) else old(migrate.timeout))
          && migrate.direction == Some(DirectionFlag(parsed.up, parsed.down))
    {
      var argv := parsed.remain;
      var first := if argv == [] then "" else argv[0];
      argv := if argv == [] then [] else argv[1..];
      var resolved := Command(first);
      if resolved.Thrown? {
        return Some(resolved.message);
      }
      showVersion := parsed.version;
      var current := Command("");
      showHelp := parsed.help || current.value == "help";
      engine := migrate;
      Configure(migrate, argv, parsed);
      err := None;
    }
  }

  /**
   * The tail of `init(args)`: the engine takes the arguments after the
   * command, then the limit, the timeout and the direction the flags give.
   */
  method Configure(migrate: Engine, argv: seq<string>, parsed: Parsed)
    requires migrate.Valid()
    modifies migrate
    ensures migrate.Valid()
    ensures migrate.args == Some(argv)
    ensures migrate.limit == (if LimitArgument(parsed.limit).Some?
                              then LimitStored(LimitArgument(parsed.limit).value) else old(migrate.limit))
    ensures migrate.timeout == (if TimeoutArgument(parsed.timeout).Some?
                                then TimeoutStored(TimeoutArgument(parsed.timeout).value) else old(migrate.timeout))
    ensures migrate.direction == Some(DirectionFlag(parsed.up, parsed.down))
  {
    var _ := migrate.Args(Some(argv));
    var _ := migrate.Limit(LimitArgument(parsed.limit));
    var _ := migrate.Timeout(TimeoutArgument(parsed.timeout));
    var _ := migrate.Direction(DirectionFlag(parsed.up, parsed.down));
  }
}
