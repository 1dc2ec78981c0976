/**
 * The engine object `lib/migrate.js` exports: its getter/setters, which
 * normalise what they store, and the operations that read them (`migratables`,
 * `run` and the name `create` gives a new file).
 */
module Migrate {
  import opened Js
  import opened Naming
  import opened Ledger
  import Selection
  import opened Runner

  /** `defaultTimeout`, 30 s. */
  const DefaultTimeout: nat := 30000

  /**
   * What a getter/setter call returned: the engine itself (a setter, for
   * chaining), the value (a getter), or a thrown `Error` with its message.
   */
  datatype Access<T> = Chained | Value(value: T) | Thrown(message: string)

  // ---------------------------------------------------------------------
  // Pure helpers
  // ---------------------------------------------------------------------

  /** `list.indexOf(s)` */
  function IndexOf(list: seq<string>, s: string): (i: int)
    ensures -1 <= i < |list|
    ensures i >= 0 ==> list[i] == s && forall j :: 0 <= j < i ==> list[j] != s
    ensures i == -1 <==> s !in list
  {
    if list == [] then -1
    else if list[0] == s then 0
    else
      var i := IndexOf(list[1..], s);
      if i == -1 then -1 else i + 1
  }

  /** `isDirection(str)`: `~['up', 'down'].indexOf(str)`, where `~i` is `-i - 1`. */
  function IsDirection(s: string): (r: int)
    ensures r != 0 <==> s == "up" || s == "down"
  {
    -IndexOf(["up", "down"], s) - 1
  }

  /** `isDown(str)` */
  predicate IsDown(s: string): (r: bool)
    ensures r ==> IsDirection(s) != 0
  {
    s == "down"
  }

  /** What `limit(n)` stores for a truthy argument: `+n|0`, and 0 in place of a negative value. */
  function LimitStored(n: Number): (r: nat)
    ensures r < TwoTo31
    ensures n.Finite? && 0.0 <= n.value < TwoTo31 as real ==> r == n.value.Floor
    ensures n.Finite? && n.value < 0.0 && Trunc(n.value) >= -TwoTo31 ==> r == 0
    ensures !n.Finite? ==> r == 0
  {
    var stored := ToInt32(n);
    assert n.Finite? && -TwoTo31 <= Trunc(n.value) < TwoTo31 ==> stored == Trunc(n.value) by {
      if n.Finite? && -TwoTo31 <= Trunc(n.value) < TwoTo31 {
        ToInt32InRange(n.value);
      }
    }
    if stored < 0 then 0 else stored
  }

  /** What `timeout(n)` stores for a truthy argument: `+n|0`, and the default in place of a negative value. */
  function TimeoutStored(n: Number): (r: nat)
    ensures r < TwoTo31
    ensures n.Finite? && 0.0 <= n.value < TwoTo31 as real ==> r == n.value.Floor
    ensures n.Finite? && n.value <= -1.0 && Trunc(n.value) >= -TwoTo31 ==> r == DefaultTimeout
    ensures !n.Finite? ==> r == 0
  {
    var stored := ToInt32(n);
    assert n.Finite? && -TwoTo31 <= Trunc(n.value) < TwoTo31 ==> stored == Trunc(n.value) by {
      if n.Finite? && -TwoTo31 <= Trunc(n.value) < TwoTo31 {
        ToInt32InRange(n.value);
      }
    }
    if stored < 0 then DefaultTimeout else stored
  }

  /** What the `timeout()` getter returns: `this._timeout || defaultTimeout`, never 0. */
  function TimeoutReported(stored: nat): (ms: nat)
    ensures ms > 0
    ensures stored > 0 ==> ms == stored
    ensures stored == 0 ==> ms == DefaultTimeout
  {
    if stored == 0 then DefaultTimeout else stored
  }

  /** The test suite's limits: 4.34 is stored as 4, -12 as 0, `'lorem ipsum'` (NaN) as 0. */
  lemma LimitExamples()
    ensures LimitStored(Finite(4.34)) == 4
    ensures LimitStored(Finite(-12.0)) == 0
    ensures LimitStored(NaN) == 0
  {
    assert (4.34).Floor == 4;
    assert Trunc(-12.0) == -12;
  }

  /** A NaN or infinite timeout is stored as 0, so the getter reports the default. */
  lemma TimeoutNotFinite(n: Number)
    requires !n.Finite?
    ensures TimeoutReported(TimeoutStored(n)) == DefaultTimeout
  {
  }

  // ---------------------------------------------------------------------
  // The engine
  // ---------------------------------------------------------------------

  /** The module object, with its fields `_direction`, `_args`, `_limit` and `_timeout`. */
  class Engine {
    /** `_direction`; `None` while unset. */
    var direction: Option<string>
    /** `_args`; `None` while unset. */
    var args: Option<seq<string>>
    /** `_limit`; an unset field reads as 0, as `_limit || 0` does. */
    var limit: nat
    /** `_timeout`; an unset field reads as 0, as `_timeout || defaultTimeout` does. */
    var timeout: nat

    /** Whatever the setters do, the stored direction is `up` or `down` and the numbers are 32-bit. */
    predicate Valid()
      reads this
    {
      && (direction.Some? ==> direction.value == "up" || direction.value == "down")
      && limit < TwoTo31 && timeout < TwoTo31
    }

    constructor ()
      ensures Valid()
      ensures direction == None && args == None && limit == 0 && timeout == 0
    {
      direction, args, limit, timeout := None, None, 0, 0;
    }

    /**
     * `direction(newDirection)`: a falsy argument (`""` here) reads the
     * direction, storing `up` when none is set; `up` and `down` are stored;
     * anything else throws and leaves the engine as it was.
     */
    method Direction(newDirection: string) returns (r: Access<string>)
      requires Valid()
      modifies this
      ensures Valid()
      ensures args == old(args) && limit == old(limit) && timeout == old(timeout)
      ensures newDirection == "" ==>
        direction == Some(old(direction).GetOr("up")) && r == Value(direction.value)
      ensures newDirection != "" && (newDirection == "up" || newDirection == "down") ==>
        direction == Some(newDirection) && r == Chained
      ensures newDirection != "" && !(newDirection == "up" || newDirection == "down") ==>
        direction == old(direction) && r == Thrown("Unknown direction: \"" + newDirection + "\"")
    {
      if newDirection != "" {
        if IsDirection(newDirection) == 0 {
          return Thrown("Unknown direction: \"" + newDirection + "\"");
        }
        direction := Some(newDirection);
        return Chained;
      }
      direction := if direction.Some? then direction else Some("up");
      return Value(direction.value);
    }

    /** `args(newArgs)`: any array is stored (an empty one too); a falsy argument reads, storing `[]` when unset. */
    method Args(newArgs: Option<seq<string>>) returns (r: Access<seq<string>>)
      modifies this
      ensures direction == old(direction) && limit == old(limit) && timeout == old(timeout)
      ensures newArgs.Some? ==> args == newArgs && r == Chained
      ensures newArgs.None? ==> args == Some(old(args).GetOr([])) && r == Value(args.value)
    {
      if newArgs.Some? {
        args := newArgs;
        return Chained;
      }
      args := if args.Some? then args else Some([]);
      return Value(args.value);
    }

    /** `limit(newLimit)`: a truthy argument is stored as `LimitStored`; a falsy one reads. */
    method Limit(newLimit: Option<Number>) returns (r: Access<nat>)
      requires Valid()
      modifies this
      ensures Valid()
      ensures direction == old(direction) && args == old(args) && timeout == old(timeout)
      ensures newLimit.Some? ==> limit == LimitStored(newLimit.value) && r == Chained
      ensures newLimit.None? ==> limit == old(limit) && r == Value(limit)
    {
      if newLimit.Some? {
        limit := LimitStored(newLimit.value);
        return Chained;
      }
      return Value(limit);
    }

    /** `timeout(newTimeout)`: a truthy argument is stored as `TimeoutStored`; a falsy one reads, 0 reading as the default. */
    method Timeout(newTimeout: Option<Number>) returns (r: Access<nat>)
      requires Valid()
      modifies this
      ensures Valid()
      ensures direction == old(direction) && args == old(args) && limit == old(limit)
      ensures newTimeout.Some? ==> timeout == TimeoutStored(newTimeout.value) && r == Chained
      ensures newTimeout.None? ==> timeout == old(timeout) && r == Value(TimeoutReported(timeout))
    {
      if newTimeout.Some? {
        timeout := TimeoutStored(newTimeout.value);
        return Chained;
      }
      return Value(TimeoutReported(timeout));
    }

    /**
     * `migratables(cb)` on a directory listing and a parsed ledger (`None`
     * when reading either failed). The name filter is read first, through
     * `args()`; direction and limit only once the listing is there.
     */
    method Migratables(listing: Option<seq<string>>, loaded: Option<History>)
      returns (migratable: seq<string>, migrated: History)
      requires Valid()
      modifies this
      ensures Valid()
      ensures args == Some(old(args).GetOr([])) && limit == old(limit) && timeout == old(timeout)
      ensures listing.None? ==> direction == old(direction) && migratable == [] && migrated == map[]
      ensures listing.Some? ==> direction == Some(old(direction).GetOr("up"))
      ensures listing.Some? ==> migrated == loaded.GetOr(map[])
      ensures listing.Some? ==>
        migratable == Selection.Selection(listing.value, migrated, IsDown(direction.value), limit, Join(args.value))
    {
      var current := Args(None);
      var name := Join(current.value);
      if listing.None? {
        return [], map[];
      }
      var d := Direction("");
      var l := Limit(None);
      migratable, migrated := Selection.Migratables(listing, loaded, IsDown(d.value), l.value, name);
    }

    /**
     * `run(cb)`: select, then drain the selection; an empty selection is
     * reported as `cb(null, [])` at once. The outcome of each file's
     * migration is an input.
     */
    method Run(listing: Option<seq<string>>, loaded: Option<History>, outcome: string -> Step)
      returns (migratedNow: seq<string>, ledger: History, remaining: seq<string>, reports: seq<Report>)
      requires Valid()
      modifies this
      ensures Valid()
      ensures args == Some(old(args).GetOr([])) && limit == old(limit) && timeout == old(timeout)
      ensures listing.Some? ==> direction == Some(old(direction).GetOr("up"))
      ensures listing.None? ==> direction == old(direction)
      ensures var selected := if listing.Some?
          then Selection.Selection(listing.value, loaded.GetOr(map[]), IsDown(direction.value), limit, Join(args.value))
          else [];
        var r := RunFrom(selected, if listing.Some? then loaded.GetOr(map[]) else map[],
                         [], direction == Some("down"), TimeoutReported(timeout), outcome);
        && migratedNow == r.migratedNow && ledger == r.ledger && remaining == r.remaining && reports == r.reports
        && (selected == [] ==> reports == [Report(None, [])] && migratedNow == [])
    {
      var migratable, migrated := Migratables(listing, loaded);
      if migratable == [] {
        return [], migrated, [], [Report(None, [])];
      }
      var book := new Progress(migrated);
      var d := Direction("");
      var ms := Timeout(None);
      migratedNow, remaining, reports := Drain(migratable, book, IsDown(d.value), ms.value, outcome);
      ledger := book.migrated;
    }

    /**
     * The name `create(cb)` gives the new file, `now` being `+new Date`;
     * reading `args()` stores `[]` when unset. Writing the file is not modelled.
     */
    method Create(now: nat) returns (name: string)
      modifies this
      ensures direction == old(direction) && limit == old(limit) && timeout == old(timeout)
      ensures args == Some(old(args).GetOr([]))
      ensures name == NewName(now, args.value)
    {
      var current := Args(None);
      name := NewName(now, current.value);
    }
  }
}
