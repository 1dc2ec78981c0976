/**
 * Names of migration files: the pattern the engine selects files by, and the
 * name `create` gives a new file, built from the clock and the arguments.
 */
module Naming {
  import opened Js

  /** Digits in the timestamp prefix of a migration file name. */
  const StampDigits: nat := 13

  /**
   * `/^[0-9]{13}_.*\.js$/.test(file)`: thirteen digits, an underscore, any
   * characters except line terminators (what `.` matches), and `.js`.
   */
  predicate IsMigrationFile(file: string) {
    && |file| >= StampDigits + 4
    && AllDigits(file[..StampDigits])
    && file[StampDigits] == '_'
    && file[|file| - 3..] == ".js"
    && forall i :: StampDigits < i < |file| - 3 ==> !IsLineTerminator(file[i])
  }

  /** `args.join(' ')` */
  function Join(args: seq<string>): (r: string)
    ensures args == [] ==> r == ""
    ensures args != [] ==> |r| >= |args[0]| + |args| - 1 && r[..|args[0]|] == args[0]
    ensures |args| >= 2 ==> r[|args[0]|] == ' '
    ensures multiset(r)[' '] >= |args| - 1
  {
    if |args| == 0 then ""
    else if |args| == 1 then args[0]
    else args[0] + " " + Join(args[1..])
  }

  /** A character of the class `[\s\.]`. */
  predicate IsSeparator(c: char) {
    IsWhiteSpace(c) || c == '.'
  }

  predicate NoSeparator(s: string) {
    forall i :: 0 <= i < |s| ==> !IsSeparator(s[i])
  }

  /** What is left after dropping the separators at the front of s. */
  function SkipSeparators(s: string): (r: string)
    ensures |r| <= |s|
    ensures r == [] || !IsSeparator(r[0])
  {
    if s != [] && IsSeparator(s[0]) then SkipSeparators(s[1..]) else s
  }

  /** `s.replace(/[\s\.]+/g, '_')`: every maximal run of separators becomes one `_`. */
  function Collapse(s: string): (r: string)
    ensures NoSeparator(r)
    ensures r == [] <==> s == []
    decreases |s|
  {
    if s == [] then []
    else
      var c := if IsSeparator(s[0]) then '_' else s[0];
      var rest := Collapse(if IsSeparator(s[0]) then SkipSeparators(s[1..]) else s[1..]);
      NoSeparatorCons(c, rest);
      [c] + rest
  }

  lemma NoSeparatorCons(c: char, s: string)
    requires !IsSeparator(c) && NoSeparator(s)
    ensures NoSeparator([c] + s)
  {
    assert forall i :: 0 < i < |s| + 1 ==> ([c] + s)[i] == s[i - 1];
  }

  /** A string without separators is left as it is. */
  lemma {:induction false} CollapseKeeps(s: string)
    requires NoSeparator(s)
    ensures Collapse(s) == s
  {
    if s != [] {
      CollapseKeeps(s[1..]);
      CollapseAtOther(s);
    }
  }

  /** Collapsing twice is collapsing once. */
  lemma CollapseIdempotent(s: string)
    ensures Collapse(Collapse(s)) == Collapse(s)
  {
    CollapseKeeps(Collapse(s));
  }

  /**
   * A run of separators between a separator-free head and a tail that does
   * not start with one turns into a single underscore.
   */
  lemma {:induction false} CollapseRun(head: string, run: string, tail: string)
    requires NoSeparator(head) && run != []
    requires forall i :: 0 <= i < |run| ==> IsSeparator(run[i])
    requires tail == [] || !IsSeparator(tail[0])
    ensures Collapse(head + run + tail) == head + "_" + Collapse(tail)
  {
    if head == [] {
      assert head + run + tail == run + tail;
      CollapseRunAlone(run, tail);
    } else {
      var s := head + run + tail;
      DropFirst(head, run, tail);
      CollapseRun(head[1..], run, tail);
      CollapseAtOther(s);
      DropFirst(head, "_", Collapse(tail));
    }
  }

  /** Concatenation seen from its first character, when that lies in the first part. */
  lemma DropFirst(head: string, middle: string, tail: string)
    requires head != []
    ensures (head + middle + tail)[0] == head[0]
    ensures (head + middle + tail)[1..] == head[1..] + middle + tail
    ensures [head[0]] + (head[1..] + middle + tail) == head + middle + tail
  {
    assert head == [head[0]] + head[1..];
  }

  /** A run of separators in front of a tail that does not start with one becomes one `_`. */
  lemma CollapseRunAlone(run: string, tail: string)
    requires run != []
    requires forall i :: 0 <= i < |run| ==> IsSeparator(run[i])
    requires tail == [] || !IsSeparator(tail[0])
    ensures Collapse(run + tail) == "_" + Collapse(tail)
  {
    var s := run + tail;
    assert s[0] == run[0] && s[1..] == run[1..] + tail;
    SkipRun(run[1..], tail);
    CollapseAtSeparator(s);
  }

  /** One step of `Collapse` at a separator. */
  lemma CollapseAtSeparator(s: string)
    requires s != [] && IsSeparator(s[0])
    ensures Collapse(s) == "_" + Collapse(SkipSeparators(s[1..]))
  {
  }

  /** One step of `Collapse` at any other character. */
  lemma CollapseAtOther(s: string)
    requires s != [] && !IsSeparator(s[0])
    ensures Collapse(s) == [s[0]] + Collapse(s[1..])
  {
  }

  lemma {:induction false} SkipRun(run: string, tail: string)
    requires forall i :: 0 <= i < |run| ==> IsSeparator(run[i])
    requires tail == [] || !IsSeparator(tail[0])
    ensures SkipSeparators(run + tail) == tail
  {
    if run != [] {
      assert (run + tail)[1..] == run[1..] + tail;
      SkipRun(run[1..], tail);
    }
  }

  /** The middle part of a new name: the collapsed arguments, or `migration` when that is empty. */
  function Suffix(args: seq<string>): (r: string)
    ensures r != [] && NoSeparator(r)
    ensures Collapse(Join(args)) != [] ==> r == Collapse(Join(args))
  {
    var collapsed := Collapse(Join(args));
    if collapsed == [] then "migration" else collapsed
  }

  /** `+new Date + '_' + (suffix) + '.js'`, where `now` is the clock in milliseconds. */
  function NewName(now: nat, args: seq<string>): (name: string)
    ensures var d := Decimal(now);
      && |name| == |d| + 1 + |Suffix(args)| + 3
      && name[..|d|] == d && name[|d|] == '_' && name[|name| - 3..] == ".js"
  {
    Decimal(now) + "_" + Suffix(args) + ".js"
  }

  /** A name made from a 13-digit clock splits back into its three parts. */
  lemma NewNameParts(now: nat, args: seq<string>)
    requires Pow10(StampDigits - 1) <= now < Pow10(StampDigits)
    ensures var name := NewName(now, args);
      && |name| == StampDigits + 1 + |Suffix(args)| + 3
      && name[..StampDigits] == Decimal(now)
      && DigitsValue(name[..StampDigits]) == now
      && name[StampDigits] == '_'
      && name[StampDigits + 1..|name| - 3] == Suffix(args)
      && name[|name| - 3..] == ".js"
  {
    DecimalLength(now, StampDigits);
    DecimalValue(now);
    NameSplit(Decimal(now), Suffix(args));
  }

  /** `d + '_' + middle + '.js'` splits back into its parts at position |d|. */
  lemma NameSplit(d: string, middle: string)
    ensures var name := d + "_" + middle + ".js";
      && |name| == |d| + 1 + |middle| + 3
      && name[..|d|] == d
      && name[|d|] == '_'
      && name[|d| + 1..|name| - 3] == middle
      && name[|name| - 3..] == ".js"
      && forall i :: |d| < i < |name| - 3 ==> name[i] == middle[i - |d| - 1]
  {
    var name := d + "_" + middle + ".js";
    var rest := "_" + middle + ".js";
    assert name == d + rest;
    assert rest[1..|rest| - 3] == middle;
  }

  /** A name is its stamp followed by the rest. */
  lemma NameAfterStamp(d: string, middle: string)
    ensures d + "_" + middle + ".js" == d + ("_" + middle + ".js")
  {
  }

  /** Thirteen digits, `_`, a middle part without separators and `.js` pass the pattern. */
  lemma StampedNameMatches(d: string, middle: string)
    requires |d| == StampDigits && AllDigits(d) && NoSeparator(middle)
    ensures IsMigrationFile(d + "_" + middle + ".js")
  {
    NameSplit(d, middle);
    var name := d + "_" + middle + ".js";
    forall i | StampDigits < i < |name| - 3
      ensures !IsLineTerminator(name[i])
    {
      assert name[i] == middle[i - StampDigits - 1];
    }
  }

  /** With fewer than 13 digits, the `_` falls among the first 13 characters. */
  lemma ShortStampFails(d: string, middle: string)
    requires |d| < StampDigits
    ensures !IsMigrationFile(d + "_" + middle + ".js")
  {
    NameSplit(d, middle);
    var name := d + "_" + middle + ".js";
    if |name| >= StampDigits {
      assert name[..StampDigits][|d|] == '_';
    }
  }

  /** With more than 13 digits, the character after the first 13 is a digit, not `_`. */
  lemma LongStampFails(d: string, middle: string)
    requires |d| > StampDigits && AllDigits(d)
    ensures !IsMigrationFile(d + "_" + middle + ".js")
  {
    NameSplit(d, middle);
    var name := d + "_" + middle + ".js";
    assert name[StampDigits] == d[StampDigits];
  }

  /**
   * The name of a new file passes the selection pattern exactly when the
   * clock has 13 digits (from September 2001 until the year 2286).
   */
  lemma NewNameMatches(now: nat, args: seq<string>)
    ensures IsMigrationFile(NewName(now, args)) <==> Pow10(StampDigits - 1) <= now < Pow10(StampDigits)
  {
    var d := Decimal(now);
    DecimalLength(now, StampDigits);
    if Pow10(StampDigits - 1) <= now < Pow10(StampDigits) {
      StampedNameMatches(d, Suffix(args));
    } else if now < Pow10(StampDigits - 1) {
      DecimalShort(now, StampDigits - 1);
      ShortStampFails(d, Suffix(args));
    } else {
      DecimalLong(now, StampDigits);
      LongStampFails(d, Suffix(args));
    }
  }

  /** Names created at a later millisecond sort after names created earlier. */
  lemma NewNamesOrdered(earlier: nat, later: nat, args1: seq<string>, args2: seq<string>)
    requires Pow10(StampDigits - 1) <= earlier < later < Pow10(StampDigits)
    ensures Less(NewName(earlier, args1), NewName(later, args2))
  {
    var p, q := Decimal(earlier), Decimal(later);
    DecimalLength(earlier, StampDigits);
    DecimalLength(later, StampDigits);
    DecimalValue(earlier);
    DecimalValue(later);
    DigitsOrder(p, q);
    NameAfterStamp(p, Suffix(args1));
    NameAfterStamp(q, Suffix(args2));
    LessByPrefix(p, q, "_" + Suffix(args1) + ".js", "_" + Suffix(args2) + ".js");
  }

  /** Without arguments the middle part is `migration`. */
  lemma SuffixWithoutArgs()
    ensures Suffix([]) == "migration"
  {
  }

  /**
   * Words without separators are joined by underscores: the arguments
   * `My Super Migration` after the `create` command give the middle part
   * `My_Super_Migration`.
   */
  lemma SuffixOfWords(first: string, second: string, third: string)
    requires first != [] && second != [] && third != []
    requires NoSeparator(first) && NoSeparator(second) && NoSeparator(third)
    ensures Suffix([first, second, third]) == first + "_" + second + "_" + third
  {
    JoinThree(first, second, third);
    CollapseThree(first, second, third);
  }

  lemma JoinThree(first: string, second: string, third: string)
    ensures Join([first, second, third]) == first + " " + (second + " " + third)
  {
    var words := [first, second, third];
    assert words[1..] == [second, third] && words[1..][1..] == [third];
    assert Join([second, third]) == second + " " + third;
  }

  lemma CollapseThree(first: string, second: string, third: string)
    requires first != [] && second != [] && third != []
    requires NoSeparator(first) && NoSeparator(second) && NoSeparator(third)
    ensures Collapse(first + " " + (second + " " + third)) == first + "_" + second + "_" + third
  {
    var tail := second + " " + third;
    CollapseKeeps(third);
    CollapseRun(second, " ", third);
    assert Collapse(tail) == second + "_" + third;
    CollapseRun(first, " ", tail);
  }
}
