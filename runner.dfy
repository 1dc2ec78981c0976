/**
 * The body of `run` once the selection is known: `next` and `doNext` drain
 * the selected files one at a time, shifting them off the queue, and stop
 * at the first migration that fails, times out or throws, or whose ledger
 * write fails. The migration modules, the timer and the file system are not
 * modelled; what each file's attempt did is an input (`Step`).
 */
module Runner {
  import opened Js
  import opened Ledger

  /** What calling a migration's `up` or `down` came to. */
  datatype Attempt =
      /** `done(err)` arrived before the timer fired; `error` is a truthy `err`. */
    | Completed(error: Option<string>)
      /** The timer fired first; `late` is a `done(err)` arriving afterwards, if any. */
    | TimedOut(late: Option<Option<string>>)
      /**
       * Loading the module or calling the method threw synchronously;
       * `exception` is the thrown value when it is truthy, `None` for a
       * falsy one (`throw null`, `throw ''`, `throw 0`).
       */
    | Threw(exception: Option<string>)

  /**
   * One file's attempt, the clock when `saveProgress` records it, and the
   * outcome of writing the ledger afterwards (only used after a success).
   */
  datatype Step = Step(attempt: Attempt, savedAt: nat, writeError: Option<string>)

  /** A call of `run`'s callback, `cb(err, migratedNow)`. */
  datatype Report = Report(error: Option<string>, migrated: seq<string>)

  /**
   * Everything a run leaves behind: the files migrated now, the ledger, what
   * is left of the shifted queue, and the callback's calls in order.
   */
  datatype Run = Run(migratedNow: seq<string>, ledger: History, remaining: seq<string>, reports: seq<Report>)

  /** `'Timeout of ' + self.timeout() + ' ms exceeded for migration: "' + file + '"'` */
  function TimeoutMessage(ms: nat, file: string): (m: string)
    ensures |m| == 11 + |Decimal(ms)| + 29 + |file| + 1
    ensures m[..11] == "Timeout of " && m[|m| - |file| - 1..] == file + "\""
  {
    "Timeout of " + Decimal(ms) + " ms exceeded for migration: \"" + file + "\""
  }

  /** `migratable.shift()`, keeping only what is left. */
  function Shift(queue: seq<string>): (r: seq<string>)
    ensures queue != [] ==> r == queue[1..]
    ensures queue == [] ==> r == []
  {
    if queue == [] then [] else queue[1..]
  }

  /**
   * The run from a queue of files still to attempt, the ledger so far and the
   * files migrated so far. A success records the file and goes on, unless
   * the ledger write fails; a failure goes through `doNext(err)`, which
   * shifts one more file off before reporting; a timeout and a synchronous
   * throw report through `next(err)` directly. A throw leaves the timer
   * running, so the timeout is reported a second time later; a falsy thrown
   * value reaches `next` as no error and no file, which reports success
   * first.
   */
  function RunFrom(queue: seq<string>, ledger: History, done: seq<string>, down: bool, ms: nat,
                   outcome: string -> Step): (r: Run)
    ensures 1 <= |r.reports| <= 2
    decreases |queue|
  {
    if queue == [] then Run(done, ledger, [], [Report(None, done)])
    else
      var file, rest := queue[0], queue[1..];
      var step := outcome(file);
      match step.attempt
      case Completed(None) =>
        var saved := Saved(ledger, file, down, Entry(step.savedAt));
        if step.writeError.Some? then Run(done + [file], saved, Shift(rest), [Report(step.writeError, done + [file])])
        else RunFrom(rest, saved, done + [file], down, ms, outcome)
      case Completed(Some(e)) => Run(done, ledger, Shift(rest), [Report(Some(e), done)])
      case TimedOut(_) => Run(done, ledger, rest, [Report(Some(TimeoutMessage(ms, file)), done)])
      case Threw(e) => Run(done, ledger, rest, [Report(e, done), Report(Some(TimeoutMessage(ms, file)), done)])
  }

  // ---------------------------------------------------------------------
  // What a run comes to
  // ---------------------------------------------------------------------

  /** The migration went up or down and its ledger write succeeded. */
  predicate Clean(step: Step) {
    step.attempt == Completed(None) && step.writeError.None?
  }

  /** The number of leading files whose attempts were clean. */
  function CleanPrefix(queue: seq<string>, outcome: string -> Step): (k: nat)
    ensures k <= |queue|
    ensures forall i :: 0 <= i < k ==> Clean(outcome(queue[i]))
    ensures k < |queue| ==> !Clean(outcome(queue[k]))
  {
    if queue == [] || !Clean(outcome(queue[0])) then 0 else 1 + CleanPrefix(queue[1..], outcome)
  }

  /**
   * The files a run applies: the clean prefix, and the file after it when
   * that migration succeeded but its ledger write failed.
   */
  function Applied(queue: seq<string>, outcome: string -> Step): seq<string> {
    var k := CleanPrefix(queue, outcome);
    if k < |queue| && outcome(queue[k]).attempt == Completed(None) then queue[..k + 1] else queue[..k]
  }

  /** The error the first unclean step reports; only a falsy throw reports none. */
  function Failure(step: Step, ms: nat, file: string): (e: Option<string>)
    requires !Clean(step)
    ensures e.None? <==> step.attempt == Threw(None)
  {
    match step.attempt
    case Completed(None) => step.writeError
    case Completed(Some(e)) => Some(e)
    case TimedOut(_) => Some(TimeoutMessage(ms, file))
    case Threw(e) => e
  }

  /** `saveProgress` for each file in turn. */
  function SaveAll(ledger: History, files: seq<string>, down: bool, outcome: string -> Step): History
    decreases |files|
  {
    if files == [] then ledger
    else SaveAll(Saved(ledger, files[0], down, Entry(outcome(files[0]).savedAt)), files[1..], down, outcome)
  }

  /**
   * The files migrated now are those migrated before followed by the applied
   * ones, in queue order, and the ledger holds exactly their updates.
   */
  lemma {:induction false} RunApplies(queue: seq<string>, ledger: History, done: seq<string>, down: bool, ms: nat,
                                      outcome: string -> Step)
    ensures var r := RunFrom(queue, ledger, done, down, ms, outcome);
      && r.migratedNow == done + Applied(queue, outcome)
      && r.ledger == SaveAll(ledger, Applied(queue, outcome), down, outcome)
  {
    if queue != [] {
      var file, rest := queue[0], queue[1..];
      var step := outcome(file);
      var saved := Saved(ledger, file, down, Entry(step.savedAt));
      if Clean(step) {
        RunFromClean(queue, ledger, done, down, ms, outcome);
        RunApplies(rest, saved, done + [file], down, ms, outcome);
        AppliedAfterClean(queue, outcome);
        var applied := Applied(rest, outcome);
        SaveAllCons(ledger, file, applied, down, outcome);
        assert done + [file] + applied == done + ([file] + applied);
      } else {
        StopApplies(queue, ledger, done, down, ms, outcome);
      }
    }
  }

  lemma SaveAllCons(ledger: History, file: string, files: seq<string>, down: bool, outcome: string -> Step)
    ensures SaveAll(ledger, [file] + files, down, outcome)
         == SaveAll(Saved(ledger, file, down, Entry(outcome(file).savedAt)), files, down, outcome)
  {
    assert ([file] + files)[1..] == files;
  }

  /** After a clean first file the run goes on from the rest, with that file recorded. */
  lemma RunFromClean(queue: seq<string>, ledger: History, done: seq<string>, down: bool, ms: nat,
                     outcome: string -> Step)
    requires queue != [] && Clean(outcome(queue[0]))
    ensures RunFrom(queue, ledger, done, down, ms, outcome)
         == RunFrom(queue[1..], Saved(ledger, queue[0], down, Entry(outcome(queue[0]).savedAt)),
                    done + [queue[0]], down, ms, outcome)
  {
  }

  /** A run that stops at its first file applies that file only when the migration itself succeeded. */
  lemma StopApplies(queue: seq<string>, ledger: History, done: seq<string>, down: bool, ms: nat,
                    outcome: string -> Step)
    requires queue != [] && !Clean(outcome(queue[0]))
    ensures var r := RunFrom(queue, ledger, done, down, ms, outcome);
      && r.migratedNow == done + Applied(queue, outcome)
      && r.ledger == SaveAll(ledger, Applied(queue, outcome), down, outcome)
  {
    var file := queue[0];
    assert CleanPrefix(queue, outcome) == 0;
    if outcome(file).attempt == Completed(None) {
      assert Applied(queue, outcome) == [file];
      assert [file][1..] == [];
    } else {
      assert Applied(queue, outcome) == [];
    }
  }

  lemma AppliedAfterClean(queue: seq<string>, outcome: string -> Step)
    requires queue != [] && Clean(outcome(queue[0]))
    ensures Applied(queue, outcome) == [queue[0]] + Applied(queue[1..], outcome)
  {
    var rest := queue[1..];
    var k := CleanPrefix(rest, outcome);
    assert CleanPrefix(queue, outcome) == k + 1;
    if k < |rest| {
      assert queue[k + 1] == rest[k];
      assert queue[..k + 2] == [queue[0]] + rest[..k + 1];
    } else {
      assert queue[..k + 1] == [queue[0]] + rest[..k];
    }
  }

  /**
   * The callback is called once with no error when every file is clean.
   * Otherwise it is called with the first unclean file's error, and called
   * once more with the timeout message when that file threw. Every call
   * carries the files migrated now.
   */
  lemma {:induction false} RunReports(queue: seq<string>, ledger: History, done: seq<string>, down: bool, ms: nat,
                                      outcome: string -> Step)
    ensures var r := RunFrom(queue, ledger, done, down, ms, outcome);
      var k := CleanPrefix(queue, outcome);
      && (k == |queue| ==> r.reports == [Report(None, r.migratedNow)] && r.remaining == [])
      && (k < |queue| ==>
           var file := queue[k];
           var first := Report(Failure(outcome(file), ms, file), r.migratedNow);
           if outcome(file).attempt.Threw?
           then r.reports == [first, Report(Some(TimeoutMessage(ms, file)), r.migratedNow)]
           else r.reports == [first])
  {
    RunApplies(queue, ledger, done, down, ms, outcome);
    if queue != [] {
      var file, rest := queue[0], queue[1..];
      var step := outcome(file);
      if Clean(step) {
        RunReports(rest, Saved(ledger, file, down, Entry(step.savedAt)), done + [file], down, ms, outcome);
        var k := CleanPrefix(rest, outcome);
        assert CleanPrefix(queue, outcome) == k + 1;
        if k < |rest| {
          assert queue[k + 1] == rest[k];
        }
      }
    }
  }

  /**
   * No call of the callback carries an error exactly when every file's
   * attempt was clean, and then every file was migrated. The first call
   * alone carries no error also when the first unclean file threw a falsy
   * value.
   */
  lemma RunSucceeds(queue: seq<string>, ledger: History, down: bool, ms: nat, outcome: string -> Step)
    ensures var r := RunFrom(queue, ledger, [], down, ms, outcome);
      ((forall j :: 0 <= j < |r.reports| ==> r.reports[j].error.None?)
       <==> (forall i :: 0 <= i < |queue| ==> Clean(outcome(queue[i]))))
    ensures var r := RunFrom(queue, ledger, [], down, ms, outcome);
      (forall i :: 0 <= i < |queue| ==> Clean(outcome(queue[i]))) ==> r.migratedNow == queue
    ensures var r := RunFrom(queue, ledger, [], down, ms, outcome);
      var k := CleanPrefix(queue, outcome);
      r.reports[0].error.None? <==> k == |queue| || outcome(queue[k]).attempt == Threw(None)
  {
    RunReports(queue, ledger, [], down, ms, outcome);
    RunApplies(queue, ledger, [], down, ms, outcome);
    var k := CleanPrefix(queue, outcome);
    if k == |queue| {
      assert queue[..k] == queue;
    } else {
      var r := RunFrom(queue, ledger, [], down, ms, outcome);
      var file := queue[k];
      assert !Clean(outcome(file));
      assert r.reports[0].error == Failure(outcome(file), ms, file);
      if outcome(file).attempt.Threw? {
        assert r.reports[1].error.Some?;
      } else {
        assert r.reports[0].error.Some?;
      }
    }
  }

  /** What is left of the queue is a suffix of it: files are only ever shifted off the front. */
  lemma {:induction false} RunRemaining(queue: seq<string>, ledger: History, done: seq<string>, down: bool, ms: nat,
                                        outcome: string -> Step)
    ensures var r := RunFrom(queue, ledger, done, down, ms, outcome);
      |r.remaining| <= |queue| && r.remaining == queue[|queue| - |r.remaining|..]
    decreases |queue|
  {
    if queue != [] {
      var step := outcome(queue[0]);
      if Clean(step) {
        RunRemaining(queue[1..], Saved(ledger, queue[0], down, Entry(step.savedAt)), done + [queue[0]], down, ms, outcome);
      }
    }
  }

  /**
   * Going up, the ledger afterwards has the applied files added, going down
   * it has them removed; no other entry changes.
   */
  lemma {:induction false} SaveAllEffect(ledger: History, files: seq<string>, down: bool, outcome: string -> Step)
    ensures var r := SaveAll(ledger, files, down, outcome);
      && (down ==> r.Keys == ledger.Keys - set f | f in files)
      && (!down ==> r.Keys == ledger.Keys + set f | f in files)
      && forall f :: f in ledger && f !in files ==> r[f] == ledger[f]
    decreases |files|
  {
    if files != [] {
      var saved := Saved(ledger, files[0], down, Entry(outcome(files[0]).savedAt));
      SaveAllEffect(saved, files[1..], down, outcome);
      assert (set f | f in files) == {files[0]} + set f | f in files[1..];
      assert files == [files[0]] + files[1..];
    }
  }

  // ---------------------------------------------------------------------
  // The timeout
  // ---------------------------------------------------------------------

  /** The timeout error names the timeout in milliseconds and the file. */
  lemma TimeoutMessageMentions(ms: nat, file: string)
    ensures Contains(TimeoutMessage(ms, file), Decimal(ms))
    ensures Contains(TimeoutMessage(ms, file), file)
  {
    var head, middle := "Timeout of ", " ms exceeded for migration: \"";
    var d := Decimal(ms);
    var m := TimeoutMessage(ms, file);
    assert m == head + d + middle + file + "\"";
    assert m[|head|..|head| + |d|] == d;
    var at := |head| + |d| + |middle|;
    assert m[at..at + |file|] == file;
  }

  // ---------------------------------------------------------------------
  // The loop
  // ---------------------------------------------------------------------

  /** The files still to attempt: the one just shifted off, if any, then the queue. */
  function Pending(file: Option<string>, queue: seq<string>): (r: seq<string>)
    ensures |r| == |queue| + (if file.Some? then 1 else 0)
  {
    if file.Some? then [file.value] + queue else queue
  }

  /** The second call of the callback, made by a timer left running, if any. */
  function Stray(error: Option<string>, migratedNow: seq<string>): (r: seq<Report>)
    ensures error.None? <==> r == []
    ensures error.Some? ==> r == [Report(error, migratedNow)]
  {
    if error.Some? then [Report(error, migratedNow)] else []
  }

  /**
   * The callback a migration is handed, `function (err) { … }`: once the
   * timer has fired (`hasTimedout`) it returns at once. Otherwise it pushes
   * the file and saves the ledger on success, and calls `doNext` with the
   * write's error, or with the migration's own error on failure.
   * `doNext` is what `doNext` was called with, `None` when it was not called.
   */
  method Done(hasTimedout: bool, err: Option<string>, file: string, migratedNow: seq<string>,
              ledger: Progress, down: bool, savedAt: nat, writeError: Option<string>)
    returns (pushed: seq<string>, doNext: Option<Option<string>>)
    modifies ledger
    ensures hasTimedout ==> pushed == migratedNow && doNext == None && ledger.migrated == old(ledger.migrated)
    ensures !hasTimedout && err.None? ==>
      && pushed == migratedNow + [file] && doNext == Some(writeError)
      && ledger.migrated == Saved(old(ledger.migrated), file, down, Entry(savedAt))
    ensures !hasTimedout && err.Some? ==>
      pushed == migratedNow && doNext == Some(err) && ledger.migrated == old(ledger.migrated)
  {
    pushed := migratedNow;
    if hasTimedout {
      return pushed, None;
    }
    if err.None? {
      pushed := pushed + [file];
      var _, writeErr := ledger.SaveProgress(file, down, savedAt, writeError);
      doNext := Some(writeErr);
    } else {
      doNext := Some(err);
    }
  }

  /**
   * One call of `next(null, file)`: start the timer, call the migration and
   * follow its outcome to the next call of `next`, given by `err` and
   * `file` (and `queue`, shifted when `doNext` shifted it), or by `stray`
   * when a timer is left running.
   */
  method Next(f: string, queue: seq<string>, migratedNow: seq<string>, ledger: Progress, down: bool, ms: nat,
              outcome: string -> Step)
    returns (pushed: seq<string>, err: Option<string>, stray: Option<string>, file: Option<string>, rest: seq<string>)
    modifies ledger
    ensures stray.Some? ==> file.None?
    ensures err.None? && stray.None? ==>
      && (file.None? ==> rest == [])
      && |Pending(file, rest)| < |[f] + queue|
      && (Clean(outcome(f)) ==> pushed == migratedNow + [f] && Pending(file, rest) == queue)
    ensures err.Some? || stray.Some? ==> |rest| <= |queue|
    ensures var r := RunFrom([f] + queue, old(ledger.migrated), migratedNow, down, ms, outcome);
      if err.None? && stray.None?
      then Clean(outcome(f)) && ledger.migrated == Saved(old(ledger.migrated), f, down, Entry(outcome(f).savedAt))
      else r == Run(pushed, ledger.migrated, rest, [Report(err, pushed)] + Stray(stray, pushed))
  {
    var step := outcome(f);
    stray, rest := None, queue;
    match step.attempt {
      case Completed(doneErr) =>
        var called;
        pushed, called := Done(false, doneErr, f, migratedNow, ledger, down, step.savedAt, step.writeError);
        // doNext(err): next(err, migratable.shift())
        err := called.value;
        file := if queue == [] then None else Some(queue[0]);
        rest := Shift(queue);
      case TimedOut(late) =>
        // the timer: hasTimedout = true; next(new Error(…))
        var hasTimedout := true;
        err := Some(TimeoutMessage(ms, f));
        file := None;
        pushed := migratedNow;
        if late.Some? {
          var called;
          pushed, called := Done(hasTimedout, late.value, f, migratedNow, ledger, down, step.savedAt,
                                 step.writeError);
          assert called.None?;
        }
      case Threw(e) =>
        // next(e): a falsy `e` with no file is taken for the end of the queue
        err := e;
        stray := Some(TimeoutMessage(ms, f));
        file := None;
        pushed := migratedNow;
    }
    assert ([f] + queue)[1..] == queue;
  }

  /**
   * `doNext()` and `next(err, file)` as a loop: each turn is one call of
   * `next`. The queue is shifted as the source shifts it, each success is
   * pushed to `migratedNow` and saved through the ledger object, and the
   * first error, or the first call without a file, ends the loop. A timer
   * that was not cleared calls back once more afterwards (`stray`).
   */
  method Drain(migratable: seq<string>, ledger: Progress, down: bool, ms: nat, outcome: string -> Step)
    returns (migratedNow: seq<string>, remaining: seq<string>, reports: seq<Report>)
    modifies ledger
    ensures var r := RunFrom(migratable, old(ledger.migrated), [], down, ms, outcome);
      && migratedNow == r.migratedNow && ledger.migrated == r.ledger
      && remaining == r.remaining && reports == r.reports
  {
    var queue := migratable;
    migratedNow := [];
    var err: Option<string> := None;
    var stray: Option<string> := None;
    // doNext(): next(undefined, migratable.shift())
    var file: Option<string> := if queue == [] then None else Some(queue[0]);
    queue := Shift(queue);
    ghost var goal := RunFrom(migratable, old(ledger.migrated), [], down, ms, outcome);
    var stopped := false;
    reports := [];
    while !stopped
      invariant stray.Some? ==> file.None?
      invariant !stopped && err.None? && stray.None? ==>
        && (file.None? ==> queue == [])
        && goal == RunFrom(Pending(file, queue), ledger.migrated, migratedNow, down, ms, outcome)
      invariant !stopped && (err.Some? || stray.Some?) ==>
        goal == Run(migratedNow, ledger.migrated, queue, [Report(err, migratedNow)] + Stray(stray, migratedNow))
      invariant stopped ==> goal == Run(migratedNow, ledger.migrated, queue, reports)
      decreases (if stopped then 0 else 1) + (if err.None? && stray.None? then 1 else 0) + |queue|
        + (if file.Some? then 1 else 0)
    {
      if err.Some? {
        reports := [Report(err, migratedNow)] + Stray(stray, migratedNow);
        stopped := true;
      } else if file.None? {
        reports := [Report(None, migratedNow)] + Stray(stray, migratedNow);
        stopped := true;
      } else {
        ghost var before := ledger.migrated;
        var f := file.value;
        if Clean(outcome(f)) {
          RunFromClean([f] + queue, before, migratedNow, down, ms, outcome);
          assert ([f] + queue)[1..] == queue;
        }
        migratedNow, err, stray, file, queue := Next(f, queue, migratedNow, ledger, down, ms, outcome);
      }
    }
    remaining := queue;
  }
}
