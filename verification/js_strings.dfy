/**
 * The JavaScript string operations the retention logic relies on: `includes`,
 * `replace` of a literal string, `split` on one character, `trim` and the
 * comparison `toUpperCase() !== "ALL"`. `IndexOf` (the search behind
 * `includes`, `replace` and `split`) and `Join` (the inverse of `split`) are
 * helpers. Strings are sequences of characters.
 */
module JsStrings {
  import opened Wrappers

  /** The characters `String.prototype.trim` removes: ECMAScript WhiteSpace and LineTerminator. */
  predicate IsWhiteSpace(c: char) {
    c == '\t' || c == '\n' || c == '\U{000B}' || c == '\U{000C}' || c == '\r' || c == ' '
    || c == '\U{00A0}' || c == '\U{1680}' || ('\U{2000}' <= c <= '\U{200A}')
    || c == '\U{2028}' || c == '\U{2029}' || c == '\U{202F}' || c == '\U{205F}'
    || c == '\U{3000}' || c == '\U{FEFF}'
  }

  predicate HasNoWhiteSpace(s: string) {
    forall k :: 0 <= k < |s| ==> !IsWhiteSpace(s[k])
  }

  /** `pat` occurs in `s` starting at index `i`. */
  predicate OccursAt(s: string, pat: string, i: int) {
    0 <= i && i + |pat| <= |s| && s[i..i + |pat|] == pat
  }

  /** Past index 0, the occurrences of `pat` in `s` are those in `s[1..]`, shifted by one. */
  lemma OccursShifted(s: string, pat: string)
    requires s != []
    ensures forall j :: 1 <= j ==> (OccursAt(s, pat, j) <==> OccursAt(s[1..], pat, j - 1))
  {
    forall j | 1 <= j
      ensures OccursAt(s, pat, j) <==> OccursAt(s[1..], pat, j - 1)
    {
      if j + |pat| <= |s| {
        var here, there := s[j..j + |pat|], s[1..][j - 1..j - 1 + |pat|];
        assert |here| == |there|;
        assert forall k :: 0 <= k < |here| ==> here[k] == there[k];
        assert here == there;
      }
    }
  }

  /** The first index where `pat` occurs in `s`, as `indexOf` would report it; `None` for -1. */
  function IndexOf(s: string, pat: string): (r: Option<nat>)
    ensures r.Some? ==> OccursAt(s, pat, r.value)
    ensures r.Some? ==> forall j :: 0 <= j < r.value ==> !OccursAt(s, pat, j)
    ensures r.None? ==> forall j :: !OccursAt(s, pat, j)
    decreases |s|
  {
    if |pat| > |s| then None
    else if s[..|pat|] == pat then Some(0)
    else
      OccursShifted(s, pat);
      match IndexOf(s[1..], pat)
      case Some(i) => Some(i + 1)
      case None => None
  }

  /** `s.includes(pat)`. */
  function Contains(s: string, pat: string): (b: bool)
    ensures b <==> exists j :: OccursAt(s, pat, j)
  {
    IndexOf(s, pat).Some?
  }

  /** `s.replace(pat, "")`: only the first occurrence of `pat` is removed. */
  function RemoveFirst(s: string, pat: string): (r: string)
    ensures IndexOf(s, pat).None? ==> r == s
    ensures IndexOf(s, pat).Some? ==>
              var i := IndexOf(s, pat).value;
              |r| == |s| - |pat| && r[..i] + pat + r[i..] == s
  {
    match IndexOf(s, pat)
    case None => s
    case Some(i) =>
      var r := s[..i] + s[i + |pat|..];
      assert r[..i] == s[..i] && r[i..] == s[i + |pat|..];
      assert s == s[..i] + s[i..i + |pat|] + s[i + |pat|..];
      r
  }

  /** The parts with `sep` between them: what `split` undoes. */
  function Join(parts: seq<string>, sep: char): string
    decreases |parts|
  {
    if parts == [] then ""
    else if |parts| == 1 then parts[0]
    else parts[0] + [sep] + Join(parts[1..], sep)
  }

  /** The first occurrence of `sep` is at index `i` exactly when `s[..i]` holds no `sep` and `s[i]` is `sep`. */
  lemma FirstSeparator(s: string, sep: char, i: nat)
    requires i < |s| && s[i] == sep && sep !in s[..i]
    ensures IndexOf(s, [sep]) == Some(i)
  {
    assert OccursAt(s, [sep], i);
  }

  /** Without an occurrence, `s` holds no `sep`. */
  lemma NoOccurrence(s: string, sep: char)
    requires IndexOf(s, [sep]).None?
    ensures sep !in s
  {
  }

  /** The first occurrence of `sep` is preceded by no other. */
  lemma FirstOccurrence(s: string, sep: char)
    requires IndexOf(s, [sep]).Some?
    ensures IndexOf(s, [sep]).value < |s|
    ensures s[IndexOf(s, [sep]).value] == sep
    ensures sep !in s[..IndexOf(s, [sep]).value]
  {
    var i := IndexOf(s, [sep]).value;
    assert s[i..i + 1] == [sep];
  }

  /** A string without `sep` has no occurrence of it. */
  lemma NoSeparator(s: string, sep: char)
    requires sep !in s
    ensures IndexOf(s, [sep]) == None
  {
    if IndexOf(s, [sep]).Some? {
      FirstOccurrence(s, sep);
    }
  }

  /** `s.split(sep)` for a one-character separator: never empty, and joining gives `s` back. */
  function Split(s: string, sep: char): (parts: seq<string>)
    ensures |parts| >= 1
    ensures forall k :: 0 <= k < |parts| ==> sep !in parts[k]
    ensures Join(parts, sep) == s
    decreases |s|
  {
    match IndexOf(s, [sep])
    case None =>
      NoOccurrence(s, sep);
      [s]
    case Some(i) =>
      FirstOccurrence(s, sep);
      var rest := Split(s[i + 1..], sep);
      var parts := [s[..i]] + rest;
      assert parts[1..] == rest;
      assert s == s[..i] + [sep] + s[i + 1..];
      parts
  }

  /** Splitting a join of separator-free parts gives the parts back. */
  lemma {:induction false} SplitJoin(parts: seq<string>, sep: char)
    requires |parts| >= 1
    requires forall k :: 0 <= k < |parts| ==> sep !in parts[k]
    ensures Split(Join(parts, sep), sep) == parts
    decreases |parts|
  {
    if |parts| == 1 {
      NoSeparator(parts[0], sep);
    } else {
      var rest := parts[1..];
      var s := Join(parts, sep);
      assert s == parts[0] + [sep] + Join(rest, sep);
      var i := |parts[0]|;
      assert s[..i] == parts[0];
      FirstSeparator(s, sep, i);
      assert s[i + 1..] == Join(rest, sep);
      SplitJoin(rest, sep);
      assert parts == [parts[0]] + rest;
    }
  }

  /** `s.trimStart()`: the suffix left after dropping the leading white space. */
  function TrimStart(s: string): (r: string)
    ensures |r| <= |s| && r == s[|s| - |r|..]
    ensures forall k :: 0 <= k < |s| - |r| ==> IsWhiteSpace(s[k])
    ensures r == [] || !IsWhiteSpace(r[0])
    decreases |s|
  {
    if s != [] && IsWhiteSpace(s[0]) then TrimStart(s[1..]) else s
  }

  /** `s.trimEnd()`: the prefix left after dropping the trailing white space. */
  function TrimEnd(s: string): (r: string)
    ensures |r| <= |s| && r == s[..|r|]
    ensures forall k :: |r| <= k < |s| ==> IsWhiteSpace(s[k])
    ensures r == [] || !IsWhiteSpace(r[|r| - 1])
    decreases |s|
  {
    if s != [] && IsWhiteSpace(s[|s| - 1]) then TrimEnd(s[..|s| - 1]) else s
  }

  /** `s.trim()`. */
  function Trim(s: string): (r: string)
    ensures |r| <= |s|
    ensures r == [] || (!IsWhiteSpace(r[0]) && !IsWhiteSpace(r[|r| - 1]))
  {
    TrimEnd(TrimStart(s))
  }

  /** Dropping leading white space stops at the first other character. */
  lemma {:induction false} TrimStartPadded(lead: string, u: string)
    requires forall k :: 0 <= k < |lead| ==> IsWhiteSpace(lead[k])
    requires u == [] || !IsWhiteSpace(u[0])
    ensures TrimStart(lead + u) == u
    decreases |lead|
  {
    if lead == [] {
      assert lead + u == u;
    } else {
      assert (lead + u)[0] == lead[0];
      assert (lead + u)[1..] == lead[1..] + u;
      TrimStartPadded(lead[1..], u);
    }
  }

  /** Dropping trailing white space stops at the last other character. */
  lemma {:induction false} TrimEndPadded(u: string, trail: string)
    requires forall k :: 0 <= k < |trail| ==> IsWhiteSpace(trail[k])
    requires u == [] || !IsWhiteSpace(u[|u| - 1])
    ensures TrimEnd(u + trail) == u
    decreases |trail|
  {
    if trail == [] {
      assert u + trail == u;
    } else {
      var n := |trail| - 1;
      assert (u + trail)[|u| + n] == trail[n];
      assert (u + trail)[..|u| + n] == u + trail[..n];
      TrimEndPadded(u, trail[..n]);
    }
  }

  /** Trimming a text padded with white space on both sides gives the text back. */
  lemma TrimPadded(lead: string, t: string, trail: string)
    requires forall k :: 0 <= k < |lead| ==> IsWhiteSpace(lead[k])
    requires forall k :: 0 <= k < |trail| ==> IsWhiteSpace(trail[k])
    requires t == [] || (!IsWhiteSpace(t[0]) && !IsWhiteSpace(t[|t| - 1]))
    ensures Trim(lead + t + trail) == t
  {
    if t == [] {
      var blank := lead + trail;
      assert forall k :: 0 <= k < |blank| ==> IsWhiteSpace(blank[k]) by {
        forall k | 0 <= k < |blank| ensures IsWhiteSpace(blank[k]) {
          if k >= |lead| { assert blank[k] == trail[k - |lead|]; }
        }
      }
      TrimStartPadded(blank, []);
      assert lead + t + trail == blank + [];
    } else {
      TrimStartPadded(lead, t + trail);
      assert lead + t + trail == lead + (t + trail);
      TrimEndPadded(t, trail);
    }
  }

  /** A string without white space is its own trim. */
  lemma TrimNoWhiteSpace(s: string)
    requires HasNoWhiteSpace(s)
    ensures Trim(s) == s
  {
    TrimPadded([], s, []);
    assert [] + s + [] == s;
  }

  /** Trimming twice is trimming once. */
  lemma TrimIdempotent(s: string)
    ensures Trim(Trim(s)) == Trim(s)
  {
    TrimPadded([], Trim(s), []);
    assert [] + Trim(s) + [] == Trim(s);
  }

  /** `pattern.split(",").map(x => x.trim())`: the entries of a comma-separated list. */
  function ListEntries(pattern: string): (entries: seq<string>)
    ensures |entries| == |Split(pattern, ',')|
    ensures forall k :: 0 <= k < |entries| ==> entries[k] == Trim(Split(pattern, ',')[k])
  {
    TrimAll(Split(pattern, ','))
  }

  /** `parts.map(x => x.trim())`. */
  function TrimAll(parts: seq<string>): (r: seq<string>)
    ensures |r| == |parts|
    ensures forall k :: 0 <= k < |parts| ==> r[k] == Trim(parts[k])
  {
    if parts == [] then [] else [Trim(parts[0])] + TrimAll(parts[1..])
  }

  /** Every entry of a comma-separated list is the trim of one of its parts. */
  lemma EntryIndex(pattern: string, x: string) returns (k: nat)
    requires x in ListEntries(pattern)
    ensures k < |Split(pattern, ',')| && Trim(Split(pattern, ',')[k]) == x
  {
    k := TrimmedIndex(ListEntries(pattern), Split(pattern, ','), x);
  }

  /** The trim of every part of a comma-separated list is one of its entries. */
  lemma EntryOfPart(pattern: string, k: nat)
    requires k < |Split(pattern, ',')|
    ensures Trim(Split(pattern, ',')[k]) in ListEntries(pattern)
  {
    assert ListEntries(pattern)[k] == Trim(Split(pattern, ',')[k]);
  }

  /** Where an element of trimmed parts comes from. */
  lemma TrimmedIndex(entries: seq<string>, parts: seq<string>, x: string) returns (k: nat)
    requires |entries| == |parts|
    requires forall i :: 0 <= i < |parts| ==> entries[i] == Trim(parts[i])
    requires x in entries
    ensures k < |parts| && Trim(parts[k]) == x
  {
    k :| k < |entries| && entries[k] == x;
  }

  /** A list written as words joined by commas, with no spaces, has those words as its entries. */
  lemma EntriesOfJoinedWords(words: seq<string>)
    requires |words| >= 1
    requires forall k :: 0 <= k < |words| ==> ',' !in words[k]
    requires forall k :: 0 <= k < |words| ==> HasNoWhiteSpace(words[k])
    ensures ListEntries(Join(words, ',')) == words
  {
    SplitJoin(words, ',');
    TrimAllNoWhiteSpace(words);
  }

  /** Words without white space are their own trims. */
  lemma TrimAllNoWhiteSpace(words: seq<string>)
    requires forall k :: 0 <= k < |words| ==> HasNoWhiteSpace(words[k])
    ensures TrimAll(words) == words
  {
    var trimmed := TrimAll(words);
    forall k | 0 <= k < |words| ensures trimmed[k] == words[k] {
      TrimNoWhiteSpace(words[k]);
    }
  }

  /** `c.toUpperCase()` for one character of the ASCII range; other characters are left alone. */
  function UpperCase(c: char): char {
    if 'a' <= c <= 'z' then (c as int - 'a' as int + 'A' as int) as char else c
  }

  /**
   * `s.toUpperCase() === "ALL"`. No character outside `a`, `A`, `l`, `L`
   * upper-cases to `A` or `L`, so the ASCII mapping decides this comparison.
   */
  function IsAllIgnoringCase(s: string): (b: bool)
    ensures b <==> |s| == 3 && s[0] in "aA" && s[1] in "lL" && s[2] in "lL"
  {
    |s| == 3 && UpperCase(s[0]) == 'A' && UpperCase(s[1]) == 'L' && UpperCase(s[2]) == 'L'
  }
}
