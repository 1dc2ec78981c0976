/**
 * `migratables`: which files of the migrations directory a run or a dry run
 * works through, and in which order.
 */
module Selection {
  import opened Js
  import opened Naming
  import opened Ledger

  /**
   * The `files.filter` callback: the file matches the naming pattern, is
   * in the ledger exactly when going down, and passes the name filter
   * (an exact match under `limit == 1`; otherwise files after the name
   * are dropped going up, files before it going down).
   */
  predicate Keep(file: string, migrated: History, down: bool, limit: nat, name: string) {
    && IsMigrationFile(file)
    && !((down && file !in migrated) || (!down && file in migrated))
    && !(limit == 1 && name != "" && name != file)
    && !(name != "" && down && Less(file, name))
    && !(name != "" && !down && Less(name, file))
  }

  /** `files.filter(Keep)`, keeping the listing's order. */
  function Filter(files: seq<string>, migrated: History, down: bool, limit: nat, name: string): (r: seq<string>)
    ensures forall f :: f in r <==> f in files && Keep(f, migrated, down, limit, name)
    ensures |r| <= |files|
  {
    if files == [] then []
    else
      var n := |files| - 1;
      assert files == files[..n] + [files[n]];
      var init := Filter(files[..n], migrated, down, limit, name);
      if Keep(files[n], migrated, down, limit, name) then init + [files[n]] else init
  }

  /** No later element is smaller than an earlier one: the result of `sort()`. */
  predicate Ascending(s: seq<string>) {
    forall i, j :: 0 <= i < j < |s| ==> LessEq(s[i], s[j])
  }

  /** The result of `sort()` followed by `reverse()`. */
  predicate Descending(s: seq<string>) {
    forall i, j :: 0 <= i < j < |s| ==> LessEq(s[j], s[i])
  }

  lemma AscendingCons(head: string, s: seq<string>)
    requires Ascending(s)
    requires forall y :: y in s ==> LessEq(head, y)
    ensures Ascending([head] + s)
  {
    var r := [head] + s;
    forall i, j | 0 <= i < j < |r|
      ensures LessEq(r[i], r[j])
    {
      if i == 0 {
        assert r[j] == s[j - 1] && r[j] in s;
      } else {
        assert r[i] == s[i - 1] && r[j] == s[j - 1];
      }
    }
  }

  /** Inserting into an ascending list, behind every smaller element. */
  function Insert(x: string, s: seq<string>): (r: seq<string>)
    requires Ascending(s)
    ensures Ascending(r)
    ensures multiset(r) == multiset(s) + multiset{x}
  {
    if s == [] then [x]
    else if LessEq(x, s[0]) then
      InsertFront(x, s);
      [x] + s
    else
      var rest := Insert(x, s[1..]);
      InsertBehind(x, s, rest);
      [s[0]] + rest
  }

  /** An element no larger than the head of an ascending list may go in front. */
  lemma InsertFront(x: string, s: seq<string>)
    requires Ascending(s) && s != [] && LessEq(x, s[0])
    ensures Ascending([x] + s)
  {
    forall y | y in s
      ensures LessEq(x, y)
    {
      var j :| 0 <= j < |s| && s[j] == y;
      assert LessEq(s[0], s[j]);
      LessEqTransitive(x, s[0], y);
    }
    AscendingCons(x, s);
  }

  /** The head stays in front of the tail with an element larger than it inserted. */
  lemma InsertBehind(x: string, s: seq<string>, rest: seq<string>)
    requires Ascending(s) && s != [] && !LessEq(x, s[0])
    requires Ascending(rest) && multiset(rest) == multiset(s[1..]) + multiset{x}
    ensures Ascending([s[0]] + rest)
    ensures multiset([s[0]] + rest) == multiset(s) + multiset{x}
  {
    LessEqTotal(x, s[0]);
    assert s == [s[0]] + s[1..];
    forall y | y in rest
      ensures LessEq(s[0], y)
    {
      assert y in multiset(rest);
      if y != x {
        assert y in multiset(s[1..]);
        var j :| 0 <= j < |s[1..]| && s[1..][j] == y;
        assert s[1 + j] == y;
      }
    }
    AscendingCons(s[0], rest);
  }

  /** `Array.prototype.sort()` with its default comparison, as insertion sort. */
  function Sort(s: seq<string>): (r: seq<string>)
    ensures Ascending(r)
    ensures multiset(r) == multiset(s)
  {
    if s == [] then []
    else
      var n := |s| - 1;
      assert s == s[..n] + [s[n]];
      Insert(s[n], Sort(s[..n]))
  }

  /**
   * An ascending order of a multiset of strings is unique: whatever algorithm
   * `sort()` runs, its result is `Sort`'s.
   */
  lemma {:induction false} AscendingUnique(a: seq<string>, b: seq<string>)
    requires Ascending(a) && Ascending(b) && multiset(a) == multiset(b)
    ensures a == b
  {
    if a != [] {
      assert a[0] in multiset(b);
      HeadsEqual(a, b);
      DropHead(a);
      DropHead(b);
      AscendingUnique(a[1..], b[1..]);
      assert a == [a[0]] + a[1..] && b == [b[0]] + b[1..];
    } else {
      assert |multiset(b)| == 0;
    }
  }

  /** Two ascending orders of one multiset start with the same element. */
  lemma HeadsEqual(a: seq<string>, b: seq<string>)
    requires Ascending(a) && Ascending(b) && multiset(a) == multiset(b) && a != [] && b != []
    ensures a[0] == b[0]
  {
    assert b[0] in multiset(a) && a[0] in multiset(b);
    var i :| 0 <= i < |a| && a[i] == b[0];
    var j :| 0 <= j < |b| && b[j] == a[0];
    assert LessEq(a[0], b[0]) by { assert LessEq(a[0], a[i]); }
    assert LessEq(b[0], a[0]) by { assert LessEq(b[0], b[j]); }
    LessEqTotal(a[0], b[0]);
  }

  lemma DropHead(a: seq<string>)
    requires a != [] && Ascending(a)
    ensures Ascending(a[1..])
    ensures multiset(a[1..]) == multiset(a) - multiset{a[0]}
  {
    assert a == [a[0]] + a[1..];
    assert forall i, j :: 0 <= i < j < |a[1..]| ==> a[1..][i] == a[i + 1] && a[1..][j] == a[j + 1];
  }

  /** `reverse()` */
  function Reverse(s: seq<string>): (r: seq<string>)
    ensures |r| == |s|
    ensures forall i :: 0 <= i < |s| ==> r[i] == s[|s| - 1 - i]
  {
    if s == [] then [] else Reverse(s[1..]) + [s[0]]
  }

  lemma ReverseDescending(s: seq<string>)
    requires Ascending(s)
    ensures Descending(Reverse(s))
    ensures multiset(Reverse(s)) == multiset(s)
  {
    var r := Reverse(s);
    forall i, j | 0 <= i < j < |r|
      ensures LessEq(r[j], r[i])
    {
      assert r[j] == s[|s| - 1 - j] && r[i] == s[|s| - 1 - i];
    }
    ReverseMultiset(s);
  }

  lemma {:induction false} ReverseMultiset(s: seq<string>)
    ensures multiset(Reverse(s)) == multiset(s)
  {
    if s != [] {
      ReverseMultiset(s[1..]);
      assert s == [s[0]] + s[1..];
    }
  }

  /** The filtered list after `sort()` and, going down, `reverse()`. */
  function Ordered(files: seq<string>, down: bool): (r: seq<string>)
    ensures |r| == |files|
  {
    var sorted := Sort(files);
    assert |sorted| == |multiset(sorted)| == |multiset(files)| == |files|;
    if down then Reverse(sorted) else sorted
  }

  function Min(a: nat, b: nat): nat {
    if a < b then a else b
  }

  /** `if (limit) migratable = migratable.slice(0, limit)` */
  function Limited(s: seq<string>, limit: nat): (r: seq<string>)
    ensures |r| <= |s| && r == s[..|r|]
    ensures limit > 0 ==> |r| == Min(limit, |s|)
    ensures limit == 0 ==> r == s
  {
    if limit > 0 then s[..Min(limit, |s|)] else s
  }

  /** `migratables` on a directory listing and a ledger. */
  function Selection(files: seq<string>, migrated: History, down: bool, limit: nat, name: string): (r: seq<string>)
    ensures |r| <= |files|
    ensures limit > 0 ==> |r| <= limit
    ensures forall f :: f in r ==> f in files && Keep(f, migrated, down, limit, name)
  {
    var eligible := Filter(files, migrated, down, limit, name);
    var ordered := Ordered(eligible, down);
    assert |ordered| == |eligible| && forall f :: f in ordered ==> f in eligible by {
      OrderedFacts(eligible, down);
      assert |multiset(ordered)| == |multiset(eligible)|;
      forall f | f in ordered
        ensures f in eligible
      {
        assert f in multiset(ordered);
      }
    }
    var r := Limited(ordered, limit);
    assert forall f :: f in r ==> f in ordered by {
      forall f | f in r
        ensures f in ordered
      {
        var i :| 0 <= i < |r| && r[i] == f;
        assert ordered[i] == f;
      }
    }
    r
  }

  lemma OrderedFacts(eligible: seq<string>, down: bool)
    ensures multiset(Ordered(eligible, down)) == multiset(eligible)
    ensures !down ==> Ascending(Ordered(eligible, down))
    ensures down ==> Descending(Ordered(eligible, down))
  {
    if down {
      ReverseDescending(Sort(eligible));
    }
  }

  /**
   * Every selected file matches the naming pattern, is in the ledger exactly
   * when going down, is in the listing, and passes the name filter.
   */
  lemma SelectionEligible(files: seq<string>, migrated: History, down: bool, limit: nat, name: string)
    ensures forall f :: f in Selection(files, migrated, down, limit, name) ==>
      && f in files
      && IsMigrationFile(f)
      && (down <==> f in migrated)
      && (name != "" && limit == 1 ==> f == name)
      && (name != "" && down ==> LessEq(name, f))
      && (name != "" && !down ==> LessEq(f, name))
  {
    var eligible := Filter(files, migrated, down, limit, name);
    var ordered := Ordered(eligible, down);
    var r := Selection(files, migrated, down, limit, name);
    OrderedFacts(eligible, down);
    forall f | f in r
      ensures f in files && IsMigrationFile(f) && (down <==> f in migrated)
      ensures name != "" && limit == 1 ==> f == name
      ensures name != "" && down ==> LessEq(name, f)
      ensures name != "" && !down ==> LessEq(f, name)
    {
      assert f in ordered;
      assert f in multiset(eligible);
      LessTrichotomy(f, name);
    }
  }

  /**
   * With `limit == 1` and a name, the selection is that one file when it is
   * eligible, and empty (not an error) otherwise.
   */
  lemma SelectionByName(files: seq<string>, migrated: History, down: bool, name: string)
    requires name != ""
    ensures Selection(files, migrated, down, 1, name) ==
      if name in files && IsMigrationFile(name) && (down <==> name in migrated) then [name] else []
  {
    if name in files && IsMigrationFile(name) && (down <==> name in migrated) {
      SelectionByNameFound(files, migrated, down, name);
    } else {
      SelectionByNameMissing(files, migrated, down, name);
    }
  }

  lemma SelectionByNameFound(files: seq<string>, migrated: History, down: bool, name: string)
    requires name != "" && name in files && IsMigrationFile(name) && (down <==> name in migrated)
    ensures Selection(files, migrated, down, 1, name) == [name]
  {
    var eligible := Filter(files, migrated, down, 1, name);
    var ordered := Ordered(eligible, down);
    OrderedFacts(eligible, down);
    LessIrreflexive(name);
    assert Keep(name, migrated, down, 1, name);
    assert name in multiset(ordered);
    assert |ordered| >= 1;
    OnlyNameKept(eligible, migrated, down, name, ordered[0]);
    assert Selection(files, migrated, down, 1, name) == ordered[..1] == [ordered[0]];
  }

  /** Under `limit == 1` with a name, the name is the only file the filter keeps. */
  lemma OnlyNameKept(eligible: seq<string>, migrated: History, down: bool, name: string, f: string)
    requires name != ""
    requires forall g :: g in eligible ==> Keep(g, migrated, down, 1, name)
    requires f in multiset(eligible)
    ensures f == name
  {
    assert f in eligible;
  }

  lemma SelectionByNameMissing(files: seq<string>, migrated: History, down: bool, name: string)
    requires name != "" && !(name in files && IsMigrationFile(name) && (down <==> name in migrated))
    ensures Selection(files, migrated, down, 1, name) == []
  {
    var eligible := Filter(files, migrated, down, 1, name);
    var ordered := Ordered(eligible, down);
    OrderedFacts(eligible, down);
    forall f
      ensures multiset(eligible)[f] == 0
    {
      assert f !in eligible;
    }
    assert multiset(eligible) == multiset{};
    assert |ordered| == |multiset(ordered)| == 0;
  }

  /** The selection is ascending going up and descending going down. */
  lemma SelectionSorted(files: seq<string>, migrated: History, down: bool, limit: nat, name: string)
    ensures !down ==> Ascending(Selection(files, migrated, down, limit, name))
    ensures down ==> Descending(Selection(files, migrated, down, limit, name))
  {
    OrderedFacts(Filter(files, migrated, down, limit, name), down);
  }

  /** Without a limit every eligible file is selected. */
  lemma SelectionUnlimited(files: seq<string>, migrated: History, down: bool, name: string)
    ensures multiset(Selection(files, migrated, down, 0, name)) == multiset(Filter(files, migrated, down, 0, name))
  {
    OrderedFacts(Filter(files, migrated, down, 0, name), down);
  }

  /**
   * With a limit, the selection holds `limit` eligible files (all of them
   * when there are fewer), and every eligible file left out comes after
   * every selected one in the run's order.
   */
  lemma SelectionLimited(files: seq<string>, migrated: History, down: bool, limit: nat, name: string)
    requires limit > 0
    ensures var eligible := multiset(Filter(files, migrated, down, limit, name));
      var r := Selection(files, migrated, down, limit, name);
      && |r| == Min(limit, |eligible|)
      && multiset(r) <= eligible
      && forall x, y :: x in r && y in eligible - multiset(r) ==> if down then LessEq(y, x) else LessEq(x, y)
  {
    var f := Filter(files, migrated, down, limit, name);
    var ordered := Ordered(f, down);
    OrderedFacts(f, down);
    LimitedPrefix(ordered, limit, down);
    assert |multiset(ordered)| == |ordered|;
  }

  /**
   * Cutting an ordered list after `limit` elements keeps `min(limit, n)` of
   * them, and every element cut off comes after every element kept.
   */
  lemma LimitedPrefix(ordered: seq<string>, limit: nat, down: bool)
    requires limit > 0
    requires !down ==> Ascending(ordered)
    requires down ==> Descending(ordered)
    ensures var r := Limited(ordered, limit);
      && |r| == Min(limit, |ordered|)
      && multiset(r) <= multiset(ordered)
      && forall x, y :: x in r && y in multiset(ordered) - multiset(r) ==> if down then LessEq(y, x) else LessEq(x, y)
  {
    var r := Limited(ordered, limit);
    var k := |r|;
    var rest := ordered[k..];
    assert ordered == r + rest;
    assert multiset(ordered) == multiset(r) + multiset(rest);
    forall x, y | x in r && y in multiset(ordered) - multiset(r)
      ensures if down then LessEq(y, x) else LessEq(x, y)
    {
      assert y in rest;
      var i :| 0 <= i < k && r[i] == x;
      var j :| 0 <= j < |rest| && rest[j] == y;
      InOrder(ordered, i, k + j, down);
    }
  }

  /** In a list ordered for the run, an earlier element comes first in the run's order. */
  lemma InOrder(ordered: seq<string>, i: nat, j: nat, down: bool)
    requires i < j < |ordered|
    requires !down ==> Ascending(ordered)
    requires down ==> Descending(ordered)
    ensures if down then LessEq(ordered[j], ordered[i]) else LessEq(ordered[i], ordered[j])
  {
  }

  lemma {:induction false} FilterKeepsAll(files: seq<string>, migrated: History, down: bool, limit: nat, name: string)
    requires forall f :: f in files ==> Keep(f, migrated, down, limit, name)
    ensures Filter(files, migrated, down, limit, name) == files
  {
    if files != [] {
      var n := |files| - 1;
      assert files == files[..n] + [files[n]];
      FilterKeepsAll(files[..n], migrated, down, limit, name);
    }
  }

  /**
   * Files created one after another and none migrated yet are all selected
   * going up without limit or name, oldest first.
   */
  lemma SelectionOfNewFiles(files: seq<string>, migrated: History)
    requires forall f :: f in files ==> IsMigrationFile(f) && f !in migrated
    requires forall i, j :: 0 <= i < j < |files| ==> Less(files[i], files[j])
    ensures Selection(files, migrated, false, 0, "") == files
  {
    FilterKeepsAll(files, migrated, false, 0, "");
    assert Ascending(files);
    AscendingUnique(Sort(files), files);
  }

  /** Once a file has gone up it is no longer selected going up. */
  lemma UpExcludesSaved(files: seq<string>, migrated: History, file: string, entry: Entry, limit: nat, name: string)
    ensures file !in Selection(files, Saved(migrated, file, false, entry), false, limit, name)
  {
    SelectionEligible(files, Saved(migrated, file, false, entry), false, limit, name);
  }

  /** Once a file has gone down it is selected going up again. */
  lemma DownRestoresSaved(files: seq<string>, migrated: History, file: string, entry: Entry)
    requires file in files && IsMigrationFile(file)
    ensures file in Selection(files, Saved(migrated, file, true, entry), false, 0, "")
  {
    var m := Saved(migrated, file, true, entry);
    SelectionUnlimited(files, m, false, "");
    assert file in Filter(files, m, false, 0, "");
    assert file in multiset(Selection(files, m, false, 0, ""));
  }

  /**
   * A file just made by `create`, with a 13-digit clock, is selected by the
   * next run going up without limit or name.
   */
  lemma NewFileSelected(files: seq<string>, migrated: History, now: nat, args: seq<string>)
    requires Pow10(StampDigits - 1) <= now < Pow10(StampDigits)
    requires NewName(now, args) in files && NewName(now, args) !in migrated
    ensures NewName(now, args) in Selection(files, migrated, false, 0, "")
  {
    var file := NewName(now, args);
    NewNameMatches(now, args);
    SelectionUnlimited(files, migrated, false, "");
    assert file in Filter(files, migrated, false, 0, "");
    assert file in multiset(Selection(files, migrated, false, 0, ""));
  }

  /**
   * `migratables`: a failed directory read gives nothing to do and an empty
   * ledger; a missing or unreadable ledger counts as empty. The listing and
   * the parsed ledger are inputs.
   */
  method Migratables(listing: Option<seq<string>>, loaded: Option<History>, down: bool, limit: nat, name: string)
    returns (migratable: seq<string>, migrated: History)
    ensures listing.None? ==> migratable == [] && migrated == map[]
    ensures listing.Some? ==> migrated == loaded.GetOr(map[])
    ensures listing.Some? ==> migratable == Selection(listing.value, migrated, down, limit, name)
  {
    if listing.None? {
      return [], map[];
    }
    var files := listing.value;
    migrated := if loaded.Some? then loaded.value else map[];
    migratable := [];
    for i := 0 to |files|
      invariant migratable == Filter(files[..i], migrated, down, limit, name)
    {
      var file := files[i];
      assert files[..i + 1] == files[..i] + [file];
      var keep := true;
      if !IsMigrationFile(file) {
        keep := false;
      } else if (down && file !in migrated) || (!down && file in migrated) {
        keep := false;
      } else if limit == 1 && name != "" && name != file {
        keep := false;
      } else if name != "" && down && Less(file, name) {
        keep := false;
      } else if name != "" && !down && Less(name, file) {
        keep := false;
      }
      if keep {
        migratable := migratable + [file];
      }
    }
    assert files[..|files|] == files;
    migratable := Sort(migratable);
    if down {
      migratable := Reverse(migratable);
    }
    if limit > 0 {
      migratable := migratable[..Min(limit, |migratable|)];
    }
  }
}
