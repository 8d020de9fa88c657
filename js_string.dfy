/** The JavaScript string operations the file manager is built from, with
    JavaScript's own semantics: `startsWith`, `endsWith`, `includes`,
    `replace(string, string)` (first occurrence only; an empty pattern matches
    at index 0), `replace(/\/$/, '')`, `split(sep)`, `join(sep)` and
    `toLowerCase` (ASCII letters only). */
module JsString {
  import opened Wrappers

  /** `s.startsWith(p)` */
  predicate StartsWith(s: string, p: string) {
    |p| <= |s| && s[..|p|] == p
  }

  /** `s.endsWith(p)` */
  predicate EndsWith(s: string, p: string) {
    |p| <= |s| && s[|s| - |p|..] == p
  }

  /** `p` occurs in `s` starting at index `i`. */
  predicate OccursAt(s: string, p: string, i: nat) {
    i + |p| <= |s| && s[i..i + |p|] == p
  }

  /** `i` is the first index at which `p` occurs in `s`. */
  predicate FirstOccurrence(s: string, p: string, i: nat) {
    OccursAt(s, p, i) && forall j :: 0 <= j < i ==> !OccursAt(s, p, j)
  }

  /** `s.indexOf(p, from)`, with `None` for JavaScript's -1. */
  function IndexOfFrom(s: string, p: string, from: nat): Option<nat>
    decreases |s| - from
  {
    if from + |p| > |s| then None
    else if s[from..from + |p|] == p then Some(from)
    else IndexOfFrom(s, p, from + 1)
  }

  /** The search from `from` finds the first occurrence at or after `from`,
      and fails only when there is none. */
  lemma {:induction false} IndexOfFromSpec(s: string, p: string, from: nat)
    ensures var r := IndexOfFrom(s, p, from);
      && (r.Some? ==> from <= r.value && OccursAt(s, p, r.value))
      && (r.Some? ==> forall j :: from <= j < r.value ==> !OccursAt(s, p, j))
      && (r.None? ==> forall j :: from <= j ==> !OccursAt(s, p, j))
    decreases |s| - from
  {
    if from + |p| <= |s| && s[from..from + |p|] != p {
      IndexOfFromSpec(s, p, from + 1);
    }
  }

  /** `s.indexOf(p)` */
  function IndexOf(s: string, p: string): Option<nat>
  {
    IndexOfFrom(s, p, 0)
  }

  /** `indexOf` finds the first occurrence, and fails only when there is none. */
  lemma IndexOfSpec(s: string, p: string)
    ensures IndexOf(s, p).Some? ==> FirstOccurrence(s, p, IndexOf(s, p).value)
    ensures IndexOf(s, p).None? ==> forall j :: !OccursAt(s, p, j)
  {
    IndexOfFromSpec(s, p, 0);
  }

  /** `s.includes(p)` */
  predicate Includes(s: string, p: string) {
    IndexOf(s, p).Some?
  }

  /** The text `replace` inserts for a replacement string `r` when the
      pattern is a string (no capture groups): `$$` stands for `$`, `$&` for
      the matched text, `` $` `` for the text before the match and `$'` for
      the text after it; any other `$` stands for itself. */
  function Substitute(r: string, matched: string, before: string, after: string): string
    decreases |r|
  {
    if |r| == 0 then ""
    else if r[0] == '$' && |r| >= 2 && r[1] == '$' then "$" + Substitute(r[2..], matched, before, after)
    else if r[0] == '$' && |r| >= 2 && r[1] == '&' then matched + Substitute(r[2..], matched, before, after)
    else if r[0] == '$' && |r| >= 2 && r[1] == '`' then before + Substitute(r[2..], matched, before, after)
    else if r[0] == '$' && |r| >= 2 && r[1] == '\'' then after + Substitute(r[2..], matched, before, after)
    else [r[0]] + Substitute(r[1..], matched, before, after)
  }

  /** A replacement without `$` is inserted as it is. */
  lemma {:induction false} SubstituteLiteral(r: string, matched: string, before: string, after: string)
    requires '$' !in r
    ensures Substitute(r, matched, before, after) == r
    decreases |r|
  {
    if |r| > 0 {
      assert r == [r[0]] + r[1..];
      SubstituteLiteral(r[1..], matched, before, after);
    }
  }

  /** `$$` stands for one `$`: the replacement `$$name`, with no further
      `$`, inserts `$name`. */
  lemma SubstituteEscapedDollar(name: string, matched: string, before: string, after: string)
    requires '$' !in name
    ensures Substitute("$$" + name, matched, before, after) == "$" + name
  {
    var r := "$$" + name;
    assert r[0] == '$' && r[1] == '$' && r[2..] == name;
    SubstituteLiteral(name, matched, before, after);
  }

  /** `s.replace(p, r)` with a string pattern: only the first occurrence of `p`
      is replaced, an empty `p` matches at the front, and `r` goes through
      `Substitute`. (The bound test always holds, by `IndexOfSpec`; it keeps
      the slice well-formed without making every use of `ReplaceFirst` carry
      that lemma.) */
  function ReplaceFirst(s: string, p: string, r: string): string
  {
    match IndexOf(s, p)
    case None => s
    case Some(i) =>
      if i + |p| <= |s| then s[..i] + Substitute(r, p, s[..i], s[i + |p|..]) + s[i + |p|..] else s
  }

  /** Only the first occurrence is replaced; without one, nothing changes. */
  lemma ReplaceFirstSpec(s: string, p: string, r: string)
    ensures !Includes(s, p) ==> ReplaceFirst(s, p, r) == s
    ensures Includes(s, p) ==>
      exists i: nat :: FirstOccurrence(s, p, i)
        && ReplaceFirst(s, p, r) == s[..i] + Substitute(r, p, s[..i], s[i + |p|..]) + s[i + |p|..]
  {
    IndexOfSpec(s, p);
  }

  /** The pattern matches at index 0 whenever `s` starts with it, so only the
      leading copy of `p` is replaced; a replacement without `$` goes in as
      it is. */
  lemma ReplaceFirstAtStart(s: string, p: string, r: string)
    requires StartsWith(s, p)
    ensures ReplaceFirst(s, p, r) == Substitute(r, p, "", s[|p|..]) + s[|p|..]
    ensures '$' !in r ==> ReplaceFirst(s, p, r) == r + s[|p|..]
  {
    assert OccursAt(s, p, 0);
    assert IndexOf(s, p) == Some(0);
    assert s[..0] == "";
    if '$' !in r {
      SubstituteLiteral(r, p, "", s[|p|..]);
    }
  }

  /** Every string includes the empty string (at index 0). */
  lemma IncludesEmpty(s: string)
    ensures Includes(s, "")
  {
    assert OccursAt(s, "", 0);
  }

  /** `s.replace(/\/$/, '')`: drops one trailing slash, if there is one. */
  function RemoveTrailingSlash(s: string): string
  {
    if |s| > 0 && s[|s| - 1] == '/' then s[..|s| - 1] else s
  }

  /** Dropping the trailing slash leaves a prefix of `s`; putting the slash
      back gives `s`, and a string without one is left as it is. */
  lemma RemoveTrailingSlashSpec(s: string)
    ensures StartsWith(s, RemoveTrailingSlash(s))
    ensures EndsWith(s, "/") ==> s == RemoveTrailingSlash(s) + "/"
    ensures !EndsWith(s, "/") ==> RemoveTrailingSlash(s) == s
  {
    if EndsWith(s, "/") {
      assert s == s[..|s| - 1] + [s[|s| - 1]];
    }
  }

  /** Adds one character at the front of the first part. */
  function PrependToFirst(c: char, parts: seq<string>): seq<string>
    requires |parts| >= 1
  {
    [[c] + parts[0]] + parts[1..]
  }

  /** `s.split(sep)` for a one-character separator: the pieces between
      separators, in order; an empty string gives one empty piece. */
  function Split(s: string, sep: char): (parts: seq<string>)
    ensures |parts| >= 1
    ensures forall i :: 0 <= i < |parts| ==> sep !in parts[i]
    decreases |s|
  {
    if s == [] then [""]
    else
      var rest := Split(s[1..], sep);
      if s[0] == sep then [""] + rest else PrependToFirst(s[0], rest)
  }

  /** `parts.join(sep)`; the join of no parts is the empty string. */
  function Join(parts: seq<string>, sep: char): string
    decreases |parts|
  {
    if |parts| == 0 then ""
    else if |parts| == 1 then parts[0]
    else parts[0] + [sep] + Join(parts[1..], sep)
  }

  /** `parts.pop()` on a non-empty array: its last element. */
  function Last(parts: seq<string>): string
    requires |parts| >= 1
  {
    parts[|parts| - 1]
  }

  lemma {:induction false} JoinPrependToFirst(c: char, parts: seq<string>, sep: char)
    requires |parts| >= 1
    ensures Join(PrependToFirst(c, parts), sep) == [c] + Join(parts, sep)
  {
    if |parts| > 1 {
      assert PrependToFirst(c, parts)[1..] == parts[1..];
    }
  }

  /** Joining the pieces of a split gives back the string. */
  lemma {:induction false} JoinSplit(s: string, sep: char)
    ensures Join(Split(s, sep), sep) == s
    decreases |s|
  {
    if s != [] {
      var rest := Split(s[1..], sep);
      JoinSplit(s[1..], sep);
      if s[0] == sep {
        assert ([""] + rest)[1..] == rest;
        assert s == [sep] + s[1..];
      } else {
        JoinPrependToFirst(s[0], rest, sep);
        assert s == [s[0]] + s[1..];
      }
    }
  }

  /** A string without the separator splits into itself alone. */
  lemma {:induction false} SplitWithoutSeparator(s: string, sep: char)
    requires sep !in s
    ensures Split(s, sep) == [s]
    decreases |s|
  {
    if s != [] {
      SplitWithoutSeparator(s[1..], sep);
      assert s == [s[0]] + s[1..];
    }
  }

  /** Splitting at a separator splits the two sides independently. */
  lemma {:induction false} SplitAround(a: string, b: string, sep: char)
    ensures Split(a + [sep] + b, sep) == Split(a, sep) + Split(b, sep)
    decreases |a|
  {
    if a == [] {
      assert a + [sep] + b == [sep] + b;
      assert ([sep] + b)[1..] == b;
    } else {
      var s := a + [sep] + b;
      assert s[0] == a[0];
      assert s[1..] == a[1..] + [sep] + b;
      SplitAround(a[1..], b, sep);
      if a[0] != sep {
        var ra := Split(a[1..], sep);
        var rb := Split(b, sep);
        assert PrependToFirst(a[0], ra + rb) == PrependToFirst(a[0], ra) + rb;
      }
    }
  }

  /** Joining with one more part appends a separator and that part. */
  lemma {:induction false} JoinAppend(parts: seq<string>, x: string, sep: char)
    requires |parts| >= 1
    ensures Join(parts + [x], sep) == Join(parts, sep) + [sep] + x
    decreases |parts|
  {
    if |parts| > 1 {
      assert (parts + [x])[1..] == parts[1..] + [x];
      JoinAppend(parts[1..], x, sep);
    }
  }

  /** The character `toLowerCase` gives for `c` (ASCII letters only). */
  function ToLowerChar(c: char): (r: char)
    ensures 'A' <= c <= 'Z' ==> r as int == c as int + 32
    ensures !('A' <= c <= 'Z') ==> r == c
  {
    if 'A' <= c <= 'Z' then (c as int - 'A' as int + 'a' as int) as char else c
  }

  /** `s.toLowerCase()` on ASCII letters; every other character is kept. */
  function ToLowerCase(s: string): (r: string)
    ensures |r| == |s|
    ensures forall i :: 0 <= i < |s| ==> r[i] == ToLowerChar(s[i])
    ensures forall i :: 0 <= i < |r| ==> !('A' <= r[i] <= 'Z')
  {
    seq(|s|, i requires 0 <= i < |s| => ToLowerChar(s[i]))
  }
}
