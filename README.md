# klei-migrate, modelled in Dafny

klei-migrate runs database-style migrations. A migration is a JavaScript
file named `<13-digit timestamp>_<name>.js` in a migrations directory. A
ledger, `.migrated.json`, records which of them have gone up and when. The
engine (`lib/migrate.js`) does four things:

- It selects the files to work through, given a direction, a limit and an
  optional name.
- It runs the selected files one at a time and stops at the first failure.
- It records each success in the ledger and writes the ledger out.
- It names new migration files.

The command-line front end (`lib/cli.js`) resolves the command name and
turns the option table into the argument parser's shape. It then passes the
parsed flags to the engine.

The model is split into these modules:

- `Js` holds the JavaScript semantics the code relies on:
  - ToInt32 (`x|0`) with its 32-bit wrap-around;
  - number-to-string rendering, and the string order of `<` and `sort()`;
  - the regular-expression classes `\s` and `.`;
  - truthiness of optional arguments.
- `Naming` holds the file-name pattern of `migratables` and the name that
  `create` builds.
- `Ledger` holds the one-key update of `saveProgress`, as a function and
  as a class that keeps the ledger and changes it in place.
- `Selection` holds `migratables`, as a specification function with its
  properties and as a method with the source's filter loop.
- `Runner` holds the `next`/`doNext` loop of `run`:
  - a specification `RunFrom` over an abstract outcome per file;
  - lemmas that say what a run comes to;
  - the loop itself (`Drain`), proved against `RunFrom`.
- `Migrate` holds the engine object: its getter/setters with their
  normalisation, plus `migratables`, `run` and the name given by `create`.
- `CommandLine` holds `command`, `getOptionsForNopt`, `pad` and `init`.

A few conventions are used throughout:

- JavaScript's "falsy argument means getter" convention becomes an empty
  string (string arguments) or `None` (numbers, arrays).
- A setter returns `Chained`, a getter returns `Value(v)`, and a throw
  returns `Thrown(message)`.

A name filter bounds the selection by string order:

- going down a file is dropped when `name > file` (lib/migrate.js:298);
- going up a file is dropped when `name < file` (lib/migrate.js:301).

So `up` keeps files ≤ name and `down` keeps files ≥ name
(`Selection.SelectionEligible`).

## Model

| member | source | states |
|---|---|---|
| Js.ToInt32 | lib/migrate.js:148 | `+n\|0`: the result is in the signed 32-bit range, is congruent to the truncated value modulo 2^32, and is 0 for NaN and the infinities |
| Js.ToInt32InRange | lib/migrate.js:148 | a value already in the 32-bit range is only truncated |
| Js.Decimal | lib/migrate.js:82 | `+new Date + '_'` renders the clock as at least one decimal digit, with no leading zero unless the clock is 0 |
| Js.DecimalValue | lib/migrate.js:82 | reading the rendered digits back gives the number again |
| Js.DecimalLength | lib/migrate.js:82 | the rendering has k ≥ 2 digits exactly when 10^(k-1) ≤ n < 10^k |
| Js.Truthy | lib/migrate.js:147 | a Number is truthy unless it is 0 or NaN |
| Js.Argument | lib/migrate.js:147 | a Number argument reaches the setter branch (`if (n)`, also at line 164) exactly when it is truthy, and then unchanged; a falsy one is a getter call |
| Js.Less | lib/migrate.js:298-307 | string `<` is strict, and a proper prefix comes before the longer string |
| Js.IsWhiteSpace | lib/migrate.js:82 | the ECMAScript `\s` class: the white-space characters and the line terminators |
| Js.LessIrreflexive | lib/migrate.js:298-302 | no string is `<` itself, so a file equal to the name passes both bounds |
| Js.LessTransitive | lib/migrate.js:307 | the string order of `sort()` is transitive |
| Js.LessTrichotomy | lib/migrate.js:307 | for any two strings exactly one of a < b, a == b, b < a holds |
| Js.LessEqTotal | lib/migrate.js:307 | `≤` on strings is total and antisymmetric |
| Js.DigitsOrder | lib/migrate.js:307 | on digit strings of equal length, string order is numeric order |
| Js.LessByPrefix | lib/migrate.js:307 | two strings with differing prefixes of equal length are ordered by those prefixes |
| Naming.IsMigrationFile | lib/migrate.js:288 | `^[0-9]{13}_.*\.js$`: 13 digits, `_`, characters other than line terminators, `.js` |
| Naming.Join | lib/migrate.js:82 | `args.join(' ')` is empty for no arguments; otherwise it starts with the first argument, a space follows it when there are more, it holds at least one space per further argument, and it is at least as long as the first argument plus those spaces |
| Naming.NewName | lib/migrate.js:82 | the new name is the clock's digits, `_`, the middle part and `.js` |
| Naming.Collapse | lib/migrate.js:82 | `replace(/[\s\.]+/g, '_')` leaves no separator and is empty exactly when its input is |
| Naming.CollapseKeeps | lib/migrate.js:82 | text without separators is left unchanged |
| Naming.CollapseIdempotent | lib/migrate.js:82 | collapsing twice is collapsing once |
| Naming.CollapseRun | lib/migrate.js:82 | each maximal run of separators between words becomes one `_` |
| Naming.Suffix | lib/migrate.js:82 | the middle part is never empty and has no separator; it is the collapsed arguments when those are not empty, else `migration` |
| Naming.SuffixWithoutArgs | lib/migrate.js:82 | without arguments the middle part is `migration` |
| Naming.SuffixOfWords | lib/migrate.js:82 | three separator-free words become `first_second_third`, as the arguments `My Super Migration` that `init(['create', 'My', 'Super', 'Migration'])` stores (tests/cli.js:48-50) become `My_Super_Migration` |
| Naming.NewNameParts | lib/migrate.js:82 | a name made from a 13-digit clock is the clock's 13 digits, `_`, the middle part and `.js` |
| Naming.StampedNameMatches | lib/migrate.js:288 | 13 digits, `_`, a separator-free middle and `.js` pass `^[0-9]{13}_.*\.js$` |
| Naming.ShortStampFails | lib/migrate.js:288 | a stamp of fewer than 13 characters fails the pattern |
| Naming.LongStampFails | lib/migrate.js:288 | a stamp of more than 13 digits fails the pattern |
| Naming.NewNameMatches | lib/migrate.js:82 | the name `create` builds passes `^[0-9]{13}_.*\.js$` exactly when the clock has 13 digits |
| Naming.NewNamesOrdered | lib/migrate.js:82 | a file created at a later millisecond sorts after one created earlier, whatever the arguments |
| Ledger.Saved | lib/migrate.js:364-369 | saving changes only the file's key: going down removes it, going up sets it to the new entry, all other keys and values are kept |
| Ledger.UpThenDown | lib/migrate.js:364-369 | going up and then down leaves the ledger without the file, and as it was if the file was absent |
| Ledger.DownThenUp | lib/migrate.js:364-369 | going down and then up leaves the ledger with the new entry and the rest unchanged |
| Ledger.Progress.SaveProgress | lib/migrate.js:364-373 | the ledger object changes in place to `Saved` of its old contents; the written ledger is the whole new ledger, and the write's error is passed on |
| Selection.Keep | lib/migrate.js:287-305 | the filter callback: the name pattern, ledger membership by direction, the exact name under limit 1, and the name bound by direction |
| Selection.Filter | lib/migrate.js:287-305 | a file is kept exactly when it is in the listing and passes the filter callback |
| Selection.Insert | lib/migrate.js:307 | inserting into an ascending list gives an ascending list with one more element |
| Selection.Sort | lib/migrate.js:307 | `sort()` gives an ascending permutation of its input |
| Selection.AscendingUnique | lib/migrate.js:307 | two ascending orders of one multiset are equal, so any correct `sort()` gives `Sort`'s result |
| Selection.Reverse | lib/migrate.js:309-311 | `reverse()` puts element i at position n-1-i |
| Selection.ReverseMultiset | lib/migrate.js:309-311 | reversing keeps every element |
| Selection.ReverseDescending | lib/migrate.js:309-311 | an ascending list reversed is descending |
| Selection.Selection | lib/migrate.js:270-321 | `migratables` on a listing and a ledger selects at most as many files as listed, at most `limit` under a truthy limit, each one listed and passing the filter |
| Selection.Ordered | lib/migrate.js:307-311 | `sort()`, then `reverse()` going down, keeps the number of files; `OrderedFacts` gives the order and the permutation |
| Selection.OrderedFacts | lib/migrate.js:307-311 | the filtered list after sorting (and reversing going down) is ascending going up, descending going down, and a permutation |
| Selection.Limited | lib/migrate.js:313-315 | `slice(0, limit)` under a truthy limit keeps the first min(limit, n) elements; limit 0 keeps the whole list |
| Selection.SelectionEligible | lib/migrate.js:287-302 | every selected file is in the listing, matches the pattern, and is in the ledger exactly when going down; with a name and limit 1 it is the name; with a name it is ≥ the name going down and ≤ it going up |
| Selection.SelectionByName | lib/migrate.js:294-296 | with limit 1 and a name, the selection is `[name]` when that file is eligible and empty otherwise, with no error |
| Selection.SelectionByNameFound | lib/migrate.js:294-296 | an eligible name under limit 1 is selected alone |
| Selection.SelectionByNameMissing | lib/migrate.js:294-296 | a name that is not eligible under limit 1 gives an empty selection |
| Selection.OnlyNameKept | lib/migrate.js:294-296 | under limit 1 with a name, the filter keeps no file other than the name |
| Selection.SelectionSorted | lib/migrate.js:307-311 | the selection is ascending going up and descending going down |
| Selection.SelectionUnlimited | lib/migrate.js:313-315 | with limit 0 every eligible file is selected |
| Selection.SelectionLimited | lib/migrate.js:313-315 | with a limit, min(limit, eligible) files are selected, all of them eligible, and every eligible file left out comes after every selected one in run order |
| Selection.FilterKeepsAll | lib/migrate.js:287-305 | a listing whose files all pass the callback is kept whole and in order |
| Selection.SelectionOfNewFiles | lib/migrate.js:287-315 | new files, none migrated and listed in creation order, are all selected going up, oldest first |
| Selection.UpExcludesSaved | lib/migrate.js:291-292 | a file just saved going up is no longer selected going up |
| Selection.DownRestoresSaved | lib/migrate.js:291-292 | a file just removed going down is selected going up again |
| Selection.NewFileSelected | lib/migrate.js:288 | a file just named by `create` and not yet migrated is selected by the next run going up |
| Selection.Migratables | lib/migrate.js:270-321 | a failed listing gives nothing and an empty ledger; a missing ledger counts as empty; otherwise the filter loop, sort, reverse and slice give `Selection` |
| Runner.RunFrom | lib/migrate.js:222-266 | the run from a queue: the callback is called once, or twice after a synchronous throw |
| Runner.TimeoutMessage | lib/migrate.js:236 | the timeout error is `Timeout of `, the milliseconds, ` ms exceeded for migration: "`, the file and `"` |
| Runner.Shift | lib/migrate.js:263 | `migratable.shift()` drops the first file of a non-empty queue and leaves an empty one empty |
| Runner.CleanPrefix | lib/migrate.js:247-250 | the count of leading files whose migration succeeded and whose ledger write succeeded, with the next file not clean |
| Runner.Failure | lib/migrate.js:224-230 | the first unclean file reports an error, except a synchronous throw of a falsy value, which reaches `next` as no error and no file and so reports success |
| Runner.RunApplies | lib/migrate.js:222-266 | `migratedNow` is the clean prefix of the selection in order, plus the next file when only its ledger write failed; the ledger holds exactly those files' updates |
| Runner.AppliedAfterClean | lib/migrate.js:247-250 | after a clean first file, the applied files are that file followed by those of the rest |
| Runner.StopApplies | lib/migrate.js:247-258 | a run that stops at its first file applies it only when the migration itself succeeded |
| Runner.RunReports | lib/migrate.js:223-258 | a clean run calls back once with no error and nothing left in the queue; otherwise the first call carries the first unclean file's `Failure`; a synchronous throw is followed by a second call with the timeout message (the timer is not cleared on that path); every call carries `migratedNow` |
| Runner.RunSucceeds | lib/migrate.js:223-231 | no call carries an error exactly when every file was clean, and then every file was migrated; the first call alone carries no error also after a falsy throw |
| Runner.SaveAllEffect | lib/migrate.js:364-369 | after the applied saves, the ledger's keys gain the applied files going up and lose them going down; every other entry is unchanged |
| Runner.TimeoutMessageMentions | lib/migrate.js:236 | the timeout error contains the timeout in milliseconds and the file name |
| Runner.Done | lib/migrate.js:242-255 | once the timer has fired the callback returns at once: nothing is pushed, the ledger is unchanged and `doNext` is not called; before that, success pushes the file, saves it and calls `doNext` with the write's error, and failure calls `doNext` with the migration's error |
| Runner.Next | lib/migrate.js:233-258 | one call of `next` with a file: a clean step records the file and goes on with the shifted queue; any other step yields exactly the run `RunFrom` gives from that file, including a late callback after a timeout, which changes nothing |
| Runner.RunRemaining | lib/migrate.js:262-264 | what is left of the queue is a suffix of it |
| Runner.Drain | lib/migrate.js:222-266 | the loop with `shift`, `push` and `saveProgress` gives what `RunFrom` says: the files migrated now, the ledger object's new contents, the rest of the queue and the callback's calls |
| Migrate.IndexOf | lib/migrate.js:376 | `indexOf` gives the first position of the value, or -1 exactly when it is absent |
| Migrate.IsDirection | lib/migrate.js:375-377 | `~['up','down'].indexOf(s)` is truthy exactly for `up` and `down` |
| Migrate.IsDown | lib/migrate.js:379-381 | `isDown` holds only of a direction |
| Migrate.LimitStored | lib/migrate.js:147-151 | a truthy limit is stored as a 32-bit non-negative integer; an in-range non-negative value is floored; a negative one becomes 0; NaN becomes 0 |
| Migrate.TimeoutStored | lib/migrate.js:164-168 | a truthy timeout is stored as a 32-bit non-negative integer; an in-range non-negative value is floored; a value ≤ -1 becomes 30000; NaN becomes 0 |
| Migrate.TimeoutReported | lib/migrate.js:171 | the getter never reports 0: a stored 0 reads as 30000 |
| Migrate.LimitExamples | tests/migrate.js:185-195 | 4.34 is stored as 4, -12 as 0, NaN as 0 |
| Migrate.TimeoutNotFinite | lib/migrate.js:165-171 | a NaN or infinite timeout reads back as the default |
| Ledger.Progress.constructor | lib/migrate.js:279-282 | the ledger object starts as the ledger read from disk |
| Migrate.Engine.constructor | lib/migrate.js:117-172 | a fresh engine has no direction, no arguments, limit 0 and timeout 0 stored |
| Migrate.Engine.Direction | lib/migrate.js:117-126 | the getter stores and returns `up` when nothing is set; `up`/`down` are stored; anything else throws `Unknown direction: "x"` and changes nothing; the stored direction is always `up` or `down` |
| Migrate.Engine.Args | lib/migrate.js:133-139 | any array, even an empty one, is stored; the getter stores and returns `[]` when nothing is set |
| Migrate.Engine.Limit | lib/migrate.js:146-155 | a truthy argument stores `LimitStored`; the getter returns the stored limit, 0 by default |
| Migrate.Engine.Timeout | lib/migrate.js:162-172 | a truthy argument stores `TimeoutStored`; the getter returns `TimeoutReported` of the stored value |
| Migrate.Engine.Migratables | lib/migrate.js:270-285 | reads the name through `args()`, and direction and limit only when there is a listing; gives `Selection` |
| Migrate.Engine.Run | lib/migrate.js:209-268 | an empty selection calls back once with no error and nothing migrated; otherwise the run is `RunFrom` of the selection, the ledger read, the direction and the reported timeout |
| Migrate.Engine.Create | lib/migrate.js:81-82 | the new file's name is `NewName` of the clock and the arguments, and reading the arguments stores `[]` when none are set |
| CommandLine.CommandsAreTheTable | lib/cli.js:22-32 | the commands are `run`, `create`, `dry`, `help`, `version`; the aliases are `status` and `new` |
| CommandLine.ResolveCommand | lib/cli.js:123-129 | a name resolves exactly when it is a command or an alias; an alias becomes its command, a command stays itself, and anything else fails with `Unknown command: "x"` |
| CommandLine.AliasesResolve | lib/cli.js:124-129 | `status` resolves to `dry`, `new` to `create`, each command to itself, and every other name fails |
| CommandLine.OptionKeysDistinct | lib/cli.js:7-21 | the option table has distinct keys |
| CommandLine.ShortFormOf | lib/cli.js:140 | an alias entry maps to `[--alias, value]` when it has a value, else to `--alias` |
| CommandLine.FullFormOf | lib/cli.js:142 | any other entry maps to `[type, default]` when it has a default, else to `type` |
| CommandLine.GetOptionsForNopt | lib/cli.js:136-146 | every option key lands in exactly one of `short` and `full`: an alias key maps to `--alias`, or to `[--alias, value]` when the entry has a value; any other key maps to `[type, default]` when there is a default, else to `type` |
| CommandLine.Spaces | lib/cli.js:149 | k spaces |
| CommandLine.Pad | lib/cli.js:148-150 | text no longer than the length is kept and followed by spaces to a total of length - 1, or exactly the text when the lengths are equal; a longer text makes `new Array` throw |
| CommandLine.DirectionFlag | lib/cli.js:53 | the flag expression always gives a valid direction |
| CommandLine.DirectionFlagDown | lib/cli.js:53 | the direction is `down` exactly when `--down` is given and `--up` is not |
| CommandLine.LimitArgument | lib/cli.js:49 | an unset or zero limit goes to the engine as a getter call |
| CommandLine.TimeoutArgument | lib/cli.js:51 | the seconds times 1000 are passed on; unset (NaN) and zero go as a getter call |
| CommandLine.TimeoutInMilliseconds | lib/cli.js:51 | a positive number of seconds reads back from `timeout()` as its milliseconds rounded down, or the default when that is 0 |
| CommandLine.TenSeconds | tests/cli.js:25-29 | `--timeout 10` reads back as 10000 ms |
| CommandLine.Configure | lib/cli.js:47-53 | the engine stores the arguments after the command, `LimitStored` of a truthy limit, `TimeoutStored` of a truthy timeout in milliseconds (falsy ones leave the stored values), and `DirectionFlag` as the direction |
| CommandLine.Cli.constructor | lib/cli.js:37-56 | a fresh command-line object has nothing set |
| CommandLine.Cli.Command | lib/cli.js:122-134 | the getter stores and returns `help` when nothing is set; a command or alias is stored as its command; anything else throws and stores nothing |
| CommandLine.Cli.Init | lib/cli.js:37-56 | an unknown first argument throws before anything is set. Otherwise the first argument sets the command, and the rest become the engine's arguments. The version and help flags are recorded, with help also shown for the `help` command. The limit and timeout setters receive the parsed values, the timeout times 1000. The direction is `DirectionFlag` |

## Left out

- File-system access is not modelled. Directory listing, ledger reading and writing, `mkdirp` and reading the template are inputs to the model instead:
  - the listing is `Option<seq<string>>`, where `None` is a failed `readdir`;
  - the parsed ledger is `Option<History>`, where `None` is a missing or unreadable file;
  - each ledger write's error is part of the file's `Step`.
  - Creating the new file is not modelled; the name `create` gives it is.
- A ledger that parses to something other than an object, or that holds falsy values, is not modelled. The ledger is a map of file names to entries, and every entry counts as present.
- Loading migration modules with `require`, the timers and the callback race are not modelled. Each file's attempt is an abstract `Attempt`: completed with or without an error, timed out (with any late callback), or thrown synchronously.
- A migration that calls its callback twice, or calls it synchronously and then throws, is not modelled.
- Runner.RunFrom: a migration that registers its `done` callback and then throws is modelled as a throw only. In the source, when that `done` later arrives before the timer, lines 243-250 clear the timer, push the file, save the ledger and call `doNext`: the run goes on through the rest of the queue and calls the callback again, after reporting the throw at line 258. `Threw` has no late callback, so `RunFrom`, `RunApplies` and `RunReports` describe only a throw before any callback exists.
- The thrown value of a synchronous throw is modelled only by its truthiness: a truthy one is its message, a falsy one (`null`, `''`, `0`) is `None`.
- The event emitter is not modelled: `emit`, `on`, `error` and the `cb ? … : ee.emit('error')` fallback. The model treats a callback as always given.
- `cwd`, `env`, `templatePath`, `directory` and `template` are left out. They wrap `process.cwd`, `NODE_ENV`, `path.resolve` and file reads, which the model does not have.
- `new Date` is an input, `now`, in milliseconds. Clocks before 1970 are not modelled.
- `dry` is not modelled separately: it is `migratables` plus events.
- The `nopt` parser is an input: its result is the `Parsed` record. `help`, `version` and `exec` are left out; their only logic is console output and `process.exit`.
- CommandLine.TimeoutArgument: a number is an exact real, so `parsed.timeout * 1000` is the exact product, not the rounded double product; fractional seconds may land one millisecond higher than in the source (1.005 s is 1005 ms here, 1004 ms in the source). A parsed timeout that is infinite or NaN other than "unset" is not modelled, because `Parsed.timeout` is a finite real.
- CommandLine.TimeoutInMilliseconds: the milliseconds it states are those of the exact product, under the same rounding caveat as `TimeoutArgument`.
- Selection.Sort: characters are compared as code points, while JavaScript compares UTF-16 code units. The two orders differ only for characters above U+FFFF.
- Migrate.LimitStored: the exact stored value is stated only for arguments whose truncation lies in the signed 32-bit range. Beyond that, the contract states only the range. The wrap-around itself is modelled exactly in `Js.ToInt32`.
- Migrate.TimeoutStored: the same restriction as `LimitStored`. Negative values between -1 and 0 truncate to 0 and are stored as 0, which the contract leaves to `Js.ToInt32`.
- Migrate.Engine.Direction: a falsy argument is the empty string. `undefined`, `null`, `0` and `false` behave the same in the source.
- Inherited `Object.prototype` names given as a command, such as `constructor`, are not modelled. The model's tables are plain maps. In the source, such names also end in the unknown-command error, because the looked-up value is not a string key of `commands`.
