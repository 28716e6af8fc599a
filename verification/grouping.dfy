/**
 * Thousands grouping of a decimal numeral: the digits are cut into groups of
 * three from the right and the groups are joined with a separator. The web
 * front end prints counts this way with ',' and the scraped pages show them
 * with ',' or '.', which the number parsers then have to undo.
 */
module Grouping {
  import opened Text

  /** The digit groups of `d`, three digits each from the right; the first holds the rest. */
  function Groups(d: string): (gs: seq<string>)
    ensures |gs| >= 1
    ensures |d| > 0 ==> 1 <= |gs[0]| <= 3
    ensures |d| <= 3 ==> gs == [d]
    ensures forall k | 1 <= k < |gs| :: |gs[k]| == 3
    ensures |d| > 0 ==> |gs| == (|d| + 2) / 3
    decreases |d|
  {
    if |d| <= 3 then [d] else Groups(d[..|d| - 3]) + [d[|d| - 3..]]
  }

  /** The groups joined with `sep`. */
  function Group(d: string, sep: char): string {
    Join(Groups(d), [sep])
  }

  /** Every group is a piece of `d`. */
  lemma {:induction false} GroupsAreSlices(d: string, c: char)
    requires c !in d
    ensures forall k | 0 <= k < |Groups(d)| :: c !in Groups(d)[k]
    decreases |d|
  {
    if |d| > 3 {
      var p := d[..|d| - 3];
      assert c !in p by { assert forall i | 0 <= i < |p| :: p[i] == d[i]; }
      var x := d[|d| - 3..];
      assert c !in x by { assert forall i | 0 <= i < 3 :: x[i] == d[|d| - 3 + i]; }
      GroupsAreSlices(p, c);
    }
  }

  lemma {:induction false} GroupsAreDigits(d: string)
    requires AllDigits(d)
    ensures forall k | 0 <= k < |Groups(d)| :: AllDigits(Groups(d)[k])
    decreases |d|
  {
    if |d| > 3 {
      var p := d[..|d| - 3];
      assert AllDigits(p) by { assert forall i | 0 <= i < |p| :: p[i] == d[i]; }
      var x := d[|d| - 3..];
      assert AllDigits(x) by { assert forall i | 0 <= i < 3 :: x[i] == d[|d| - 3 + i]; }
      GroupsAreDigits(p);
    }
  }

  lemma {:induction false} ConcatSnoc(parts: seq<string>, x: string)
    ensures Concat(parts + [x]) == Concat(parts) + x
    decreases |parts|
  {
    if |parts| > 0 {
      assert (parts + [x])[1..] == parts[1..] + [x];
      ConcatSnoc(parts[1..], x);
    }
  }

  /** `sep.join` of one more part. */
  lemma {:induction false} JoinSnoc(parts: seq<string>, x: string, sep: string)
    requires |parts| >= 1
    ensures Join(parts + [x], sep) == Join(parts, sep) + sep + x
    decreases |parts|
  {
    if |parts| > 1 {
      assert (parts + [x])[1..] == parts[1..] + [x];
      JoinSnoc(parts[1..], x, sep);
    }
  }

  /** Gluing the groups back together gives the numeral. */
  lemma {:induction false} ConcatGroups(d: string)
    ensures Concat(Groups(d)) == d
    decreases |d|
  {
    if |d| > 3 {
      var p := d[..|d| - 3];
      ConcatGroups(p);
      ConcatSnoc(Groups(p), d[|d| - 3..]);
      assert p + d[|d| - 3..] == d;
    }
  }

  /** Deleting the separators from a grouped numeral gives the numeral back. */
  lemma RemoveSeparators(d: string, c: char)
    requires c !in d
    ensures Remove(Group(d, c), c) == d
  {
    GroupsAreSlices(d, c);
    RemoveJoin(Groups(d), c);
    ConcatGroups(d);
  }

  /** Splitting a grouped numeral at the separator gives its groups. */
  lemma SplitGroups(d: string, c: char)
    requires c !in d
    ensures Split(Group(d, c), [c]) == Groups(d)
  {
    GroupsAreSlices(d, c);
    SplitJoin(Groups(d), c);
  }

  /** A join of `n` separator-free parts holds `n - 1` separators. */
  lemma {:induction false} CountJoin(parts: seq<string>, c: char)
    requires |parts| >= 1
    requires forall k | 0 <= k < |parts| :: c !in parts[k]
    ensures Count(Join(parts, [c]), c) == |parts| - 1
    decreases |parts|
  {
    if |parts| > 1 {
      CountJoin(parts[1..], c);
      CountAppend(parts[0] + [c], Join(parts[1..], [c]), c);
      CountAppend(parts[0], [c], c);
      assert Count([c], c) == 1 by { assert [c][1..] == ""; }
    }
  }

  /** A grouped numeral of `n` digits holds one separator per group boundary. */
  lemma CountSeparators(d: string, c: char)
    requires c !in d && |d| > 0
    ensures Count(Group(d, c), c) == (|d| + 2) / 3 - 1
  {
    GroupsAreSlices(d, c);
    CountJoin(Groups(d), c);
  }

  /** Numerals of at most three digits are left as they are. */
  lemma GroupShort(d: string, c: char)
    requires |d| <= 3
    ensures Group(d, c) == d
  {
  }

  /** A grouped numeral starts with the numeral's first digit. */
  lemma GroupedFirst(d: string, c: char)
    requires |d| > 0
    ensures |Group(d, c)| > 0 && Group(d, c)[0] == d[0]
  {
    GroupsPrefix(d);
    JoinEnds(Groups(d), c);
  }

  /** The first group starts the numeral. */
  lemma {:induction false} GroupsPrefix(d: string)
    requires |d| > 0
    ensures |Groups(d)[0]| > 0 && Groups(d)[0][0] == d[0]
    decreases |d|
  {
    if |d| > 3 {
      GroupsPrefix(d[..|d| - 3]);
    }
  }

  lemma {:induction false} JoinEnds(parts: seq<string>, c: char)
    requires |parts| >= 1 && |parts[0]| > 0 && |parts[|parts| - 1]| > 0
    ensures |Join(parts, [c])| > 0
    ensures Join(parts, [c])[0] == parts[0][0]
    ensures Join(parts, [c])[|Join(parts, [c])| - 1] == parts[|parts| - 1][|parts[|parts| - 1]| - 1]
    decreases |parts|
  {
    if |parts| > 2 {
      var tail := parts[1..];
      assert |tail[0]| == |parts[1]|;
      if |parts[1]| > 0 {
        JoinEnds(tail, c);
      } else {
        JoinEndsTail(tail, c);
      }
    } else if |parts| == 2 {
      assert Join(parts[1..], [c]) == parts[1];
    }
  }

  lemma {:induction false} JoinEndsTail(parts: seq<string>, c: char)
    requires |parts| >= 1 && |parts[|parts| - 1]| > 0
    ensures |Join(parts, [c])| > 0
    ensures Join(parts, [c])[|Join(parts, [c])| - 1] == parts[|parts| - 1][|parts[|parts| - 1]| - 1]
    decreases |parts|
  {
    if |parts| > 1 {
      JoinEndsTail(parts[1..], c);
    }
  }

  /** A grouped numeral ends with the numeral's last digit. */
  lemma GroupedLast(d: string, c: char)
    requires |d| > 0
    ensures |Group(d, c)| > 0 && Group(d, c)[|Group(d, c)| - 1] == d[|d| - 1]
  {
    if |d| > 3 {
      JoinSnoc(Groups(d[..|d| - 3]), d[|d| - 3..], [c]);
    }
  }
}
