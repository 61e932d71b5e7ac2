/**
 * The JavaScript string operations the front-end relies on: `trim`,
 * `split` on one character, `join`, and the searches the regular
 * expressions of the blog formatter perform.
 */
module JsString {
  import opened Optional

  /** ECMAScript LineTerminator: the characters regex `.` does not match. */
  predicate IsLineTerminator(c: char) {
    c == '\n' || c == '\r' || c == '\U{2028}' || c == '\U{2029}'
  }

  /** ECMAScript WhiteSpace or LineTerminator: what `String.prototype.trim` strips. */
  predicate IsSpace(c: char) {
    IsLineTerminator(c) || c == '\t' || c == '\U{000B}' || c == '\U{000C}' || c == ' '
    || c == '\U{00A0}' || c == '\U{FEFF}' || c == '\U{1680}' || ('\U{2000}' <= c <= '\U{200A}')
    || c == '\U{202F}' || c == '\U{205F}' || c == '\U{3000}'
  }

  predicate IsTrimmed(s: string) {
    s == [] || (!IsSpace(s[0]) && !IsSpace(s[|s| - 1]))
  }

  predicate AllSpace(s: string) {
    forall i :: 0 <= i < |s| ==> IsSpace(s[i])
  }

  /** How many white-space characters `s` starts with. */
  function LeadingSpace(s: string): (n: nat)
    ensures n <= |s|
    ensures n < |s| ==> !IsSpace(s[n])
    decreases |s|
  {
    if s != [] && IsSpace(s[0]) then 1 + LeadingSpace(s[1..]) else 0
  }

  /** The characters `LeadingSpace` counts are white space. */
  lemma {:induction false} LeadingSpaceIsSpace(s: string)
    ensures forall i :: 0 <= i < LeadingSpace(s) ==> IsSpace(s[i])
    decreases |s|
  {
    if s != [] && IsSpace(s[0]) {
      LeadingSpaceIsSpace(s[1..]);
      forall i | 1 <= i < LeadingSpace(s) ensures IsSpace(s[i]) {
        assert s[i] == s[1..][i - 1];
      }
    }
  }

  /** How many white-space characters `s` ends with. */
  function TrailingSpace(s: string): (n: nat)
    ensures n <= |s|
    ensures n < |s| ==> !IsSpace(s[|s| - 1 - n])
    decreases |s|
  {
    if s != [] && IsSpace(s[|s| - 1]) then 1 + TrailingSpace(s[..|s| - 1]) else 0
  }

  /** The characters `TrailingSpace` counts are white space. */
  lemma {:induction false} TrailingSpaceIsSpace(s: string)
    ensures forall i :: |s| - TrailingSpace(s) <= i < |s| ==> IsSpace(s[i])
    decreases |s|
  {
    if s != [] && IsSpace(s[|s| - 1]) {
      var p := s[..|s| - 1];
      TrailingSpaceIsSpace(p);
      forall i | |s| - TrailingSpace(s) <= i < |s| - 1 ensures IsSpace(s[i]) {
        assert s[i] == p[i];
      }
    }
  }

  /** `s` without its leading white space. */
  function TrimStart(s: string): (r: string)
    ensures r != [] ==> !IsSpace(r[0])
  {
    s[LeadingSpace(s)..]
  }

  /** `s` without its trailing white space. */
  function TrimEnd(s: string): (r: string)
    ensures r != [] ==> !IsSpace(r[|r| - 1])
  {
    s[..|s| - TrailingSpace(s)]
  }

  /** `s.trim()`. */
  function Trim(s: string): (r: string)
    ensures IsTrimmed(r)
  {
    TrimEnd(TrimStart(s))
  }

  /** `trim` yields `""` exactly on a string of white space only. */
  lemma TrimEmptyIffBlank(s: string)
    ensures Trim(s) == [] <==> AllSpace(s)
  {
    var t := TrimStart(s);
    LeadingSpaceIsSpace(s);
    TrailingSpaceIsSpace(t);
    forall i | LeadingSpace(s) <= i < |s| ensures IsSpace(s[i]) || Trim(s) != [] {
      assert s[i] == t[i - LeadingSpace(s)];
    }
  }

  /** `trim` keeps a string that has no white space at either end. */
  lemma TrimKeepsTrimmed(s: string)
    requires IsTrimmed(s)
    ensures Trim(s) == s
  {
  }

  /** Trimming only removes characters: one absent from `s` is absent from `s.trim()`. */
  lemma TrimAddsNothing(s: string, c: char)
    requires c !in s
    ensures c !in Trim(s)
  {
    var t := TrimStart(s);
    NotInParts(c, s, LeadingSpace(s));
    NotInParts(c, t, |t| - TrailingSpace(t));
  }

  /** Trimming ignores one more leading white-space character. */
  lemma TrimSkipsLeadingSpace(c: char, s: string)
    requires IsSpace(c)
    ensures Trim([c] + s) == Trim(s)
  {
    assert ([c] + s)[1..] == s;
    assert TrimStart([c] + s) == TrimStart(s);
  }

  /** A character absent from a string is absent from its prefixes and suffixes. */
  lemma NotInParts(c: char, s: string, i: nat)
    requires c !in s && i <= |s|
    ensures c !in s[..i] && c !in s[i..]
  {
    assert s == s[..i] + s[i..];
  }

  /** A character absent from four strings is absent from their concatenation. */
  lemma NotInConcat(c: char, a: string, b: string, d: string, e: string)
    requires c !in a && c !in b && c !in d && c !in e
    ensures c !in a + b + d + e
  {
  }

  /** `s.split(sep)` for a one-character separator: never empty, and `"".split(sep)` is `[""]`. */
  function Split(s: string, sep: char): (r: seq<string>)
    ensures |r| >= 1
    ensures forall i :: 0 <= i < |r| ==> sep !in r[i]
    decreases |s|
  {
    if s == [] then [""]
    else
      var rest := Split(s[1..], sep);
      if s[0] == sep then [""] + rest
      else [[s[0]] + rest[0]] + rest[1..]
  }

  /** `parts.join(delim)`. */
  function Join(parts: seq<string>, delim: string): string
  {
    if |parts| == 0 then ""
    else if |parts| == 1 then parts[0]
    else parts[0] + delim + Join(parts[1..], delim)
  }

  /** Joining the pieces of a split with the separator gives back the string. */
  lemma {:induction false} JoinSplit(s: string, sep: char)
    ensures Join(Split(s, sep), [sep]) == s
    decreases |s|
  {
    if s != [] {
      var rest := Split(s[1..], sep);
      JoinSplit(s[1..], sep);
      if s[0] == sep {
        assert ([""] + rest)[1..] == rest;
      } else if |rest| > 1 {
        var r := [[s[0]] + rest[0]] + rest[1..];
        assert r[1..] == rest[1..];
        calc {
          Join(r, [sep]);
          [s[0]] + rest[0] + [sep] + Join(rest[1..], [sep]);
          [s[0]] + Join(rest, [sep]);
          s;
        }
      }
    }
  }

  /** A string without the separator splits into itself alone. */
  lemma {:induction false} SplitWithoutSeparator(s: string, sep: char)
    requires sep !in s
    ensures Split(s, sep) == [s]
    decreases |s|
  {
    if s != [] {
      SplitWithoutSeparator(s[1..], sep);
      assert [s[0]] + s[1..] == s;
    }
  }

  /** A separator ends the first piece; the rest is split on its own. */
  lemma {:induction false} SplitAtSeparator(a: string, sep: char, b: string)
    requires sep !in a
    ensures Split(a + [sep] + b, sep) == [a] + Split(b, sep)
    decreases |a|
  {
    var s := a + [sep] + b;
    if a == [] {
      assert s[1..] == b;
    } else {
      assert s[1..] == a[1..] + [sep] + b;
      SplitAtSeparator(a[1..], sep, b);
      assert [a[0]] + a[1..] == a;
    }
  }

  /** The first piece of a split is the part of `s` before the first separator. */
  lemma {:induction false} SplitHeadIsPrefix(s: string, sep: char)
    ensures var h := Split(s, sep)[0];
      h <= s && (h == s || s[|h|] == sep)
    decreases |s|
  {
    if s != [] && s[0] != sep {
      SplitHeadIsPrefix(s[1..], sep);
    }
  }

  /** Each piece trimmed: `parts.map(p => p.trim())`. */
  function TrimEach(parts: seq<string>): (r: seq<string>)
    ensures |r| == |parts|
    ensures forall i :: 0 <= i < |parts| ==> r[i] == Trim(parts[i])
  {
    forall i | 0 <= i < |parts| ensures Map(Trim, parts)[i] == Trim(parts[i]) {
      MapAt(Trim, parts, i);
    }
    Map(Trim, parts)
  }

  /** `parts.map(f)`. */
  function Map(f: string -> string, parts: seq<string>): (r: seq<string>)
    ensures |r| == |parts|
  {
    if parts == [] then [] else [f(parts[0])] + Map(f, parts[1..])
  }

  /** Each item of `Map(f, parts)` is `f` of the item of `parts` at the same index. */
  lemma {:induction false} MapAt(f: string -> string, parts: seq<string>, i: nat)
    requires i < |parts|
    ensures Map(f, parts)[i] == f(parts[i])
    decreases |parts|
  {
    if i > 0 {
      MapAt(f, parts[1..], i - 1);
    }
  }

  /** Mapping a list with one more item in front. */
  lemma MapCons(f: string -> string, x: string, xs: seq<string>)
    ensures Map(f, [x] + xs) == [f(x)] + Map(f, xs)
  {
    assert ([x] + xs)[1..] == xs;
  }

  /** `s.split(',').map(x => x.trim())`, the admin forms' list-field reader. */
  function SplitTrim(s: string): (r: seq<string>)
    ensures |r| >= 1
    ensures forall i :: 0 <= i < |r| ==> IsTrimmed(r[i]) && ',' !in r[i]
    ensures AllSpace(s) ==> r == [""]
  {
    var parts := Split(s, ',');
    var r := TrimEach(parts);
    assert forall i :: 0 <= i < |r| ==> ',' !in r[i] by {
      forall i | 0 <= i < |r| ensures ',' !in r[i] {
        MapAt(Trim, parts, i);
        TrimAddsNothing(parts[i], ',');
      }
    }
    assert forall i :: 0 <= i < |r| ==> IsTrimmed(r[i]) by {
      forall i | 0 <= i < |r| ensures IsTrimmed(r[i]) {
        MapAt(Trim, parts, i);
      }
    }
    assert AllSpace(s) ==> r == [""] by {
      if AllSpace(s) {
        assert forall k :: 0 <= k < |s| ==> s[k] != ',';
        SplitWithoutSeparator(s, ',');
        MapAt(Trim, parts, 0);
        TrimEmptyIffBlank(s);
      }
    }
    r
  }

  /** A white-space character in front of a split string only changes its first piece, which trimming undoes. */
  lemma LeadingSpaceVanishes(c: char, s: string)
    requires IsSpace(c) && c != ','
    ensures TrimEach(Split([c] + s, ',')) == TrimEach(Split(s, ','))
  {
    var p := Split(s, ',');
    assert ([c] + s)[1..] == s;
    var q := Split([c] + s, ',');
    assert q == [[c] + p[0]] + p[1..];
    TrimSkipsLeadingSpace(c, p[0]);
    MapCons(Trim, [c] + p[0], p[1..]);
    MapCons(Trim, p[0], p[1..]);
    assert p == [p[0]] + p[1..];
  }

  lemma TrimEachCons(x: string, xs: seq<string>)
    ensures TrimEach([x] + xs) == [Trim(x)] + TrimEach(xs)
  {
    MapCons(Trim, x, xs);
  }

  /**
   * Round trip of the admin forms' list fields: joining a non-empty list of
   * trimmed, comma-free items with ", " and reading it back with
   * split-and-trim yields the list.
   */
  lemma {:induction false} SplitTrimJoin(items: seq<string>)
    requires |items| >= 1
    requires forall i :: 0 <= i < |items| ==> IsTrimmed(items[i]) && ',' !in items[i]
    ensures SplitTrim(Join(items, ", ")) == items
    decreases |items|
  {
    if |items| == 1 {
      SplitTrimSingle(items);
    } else {
      var tail := Join(items[1..], ", ");
      assert SplitTrim(Join(items, ", ")) == [Trim(items[0])] + SplitTrim(tail) by {
        JoinCons(items, ", ");
        SplitTrimCons(items[0], tail);
      }
      assert SplitTrim(tail) == items[1..] by {
        var rest := items[1..];
        assert forall i :: 0 <= i < |rest| ==> IsTrimmed(rest[i]) && ',' !in rest[i] by {
          forall i | 0 <= i < |rest| ensures IsTrimmed(rest[i]) && ',' !in rest[i] {
            assert rest[i] == items[i + 1];
          }
        }
        SplitTrimJoin(rest);
      }
      TrimKeepsTrimmed(items[0]);
      HeadTail(items);
    }
  }

  /** A single trimmed, comma-free item reads back as itself. */
  lemma SplitTrimSingle(items: seq<string>)
    requires |items| == 1 && IsTrimmed(items[0]) && ',' !in items[0]
    ensures SplitTrim(Join(items, ", ")) == items
  {
    var x := items[0];
    SplitWithoutSeparator(x, ',');
    TrimKeepsTrimmed(x);
    assert Map(Trim, [x]) == [Trim(x)] + Map(Trim, []);
    assert items == [x];
  }

  /** A non-empty sequence is its head followed by its tail. */
  lemma HeadTail<T>(s: seq<T>)
    requires |s| >= 1
    ensures s == [s[0]] + s[1..]
  {
  }

  /** Joining two or more items: the first, the delimiter, then the rest joined. */
  lemma JoinCons(items: seq<string>, delim: string)
    requires |items| >= 2
    ensures Join(items, delim) == items[0] + (delim + Join(items[1..], delim))
  {
  }

  /** Reading back `x, tail`: the trimmed first item, then what `tail` reads back as. */
  lemma SplitTrimCons(x: string, tail: string)
    requires ',' !in x
    ensures SplitTrim(x + (", " + tail)) == [Trim(x)] + SplitTrim(tail)
  {
    var spaced := [' '] + tail;
    assert x + (", " + tail) == x + [','] + spaced;
    SplitAtSeparator(x, ',', spaced);
    TrimEachCons(x, Split(spaced, ','));
    LeadingSpaceVanishes(' ', tail);
  }

  /** The empty list does not survive the round trip: `[].join(", ")` is `""`, which reads back as `[""]`. */
  lemma EmptyListReadsBackAsEmptyItem()
    ensures SplitTrim(Join([], ", ")) == [""]
  {
  }

  /** Index of the first line terminator of `s`, or `|s|` when there is none: where regex `.*` must stop. */
  function LineEnd(s: string): (e: nat)
    ensures e <= |s|
    ensures e < |s| ==> IsLineTerminator(s[e])
    decreases |s|
  {
    if s == [] || IsLineTerminator(s[0]) then 0 else 1 + LineEnd(s[1..])
  }

  /** No line terminator comes before `LineEnd(s)`, so it is the first one. */
  lemma {:induction false} LineEndIsFirst(s: string)
    ensures forall i :: 0 <= i < LineEnd(s) ==> !IsLineTerminator(s[i])
    decreases |s|
  {
    if s != [] && !IsLineTerminator(s[0]) {
      LineEndIsFirst(s[1..]);
      forall i | 1 <= i < LineEnd(s) ensures !IsLineTerminator(s[i]) {
        assert s[i] == s[1..][i - 1];
      }
    }
  }

  /** Index of the first occurrence of `pat` in `s`, if any (`s.indexOf(pat)`). */
  function Find(s: string, pat: string): (r: Option<nat>)
    requires pat != []
    ensures r.Some? ==> r.value + |pat| <= |s|
    decreases |s|
  {
    if pat <= s then Some(0)
    else if s == [] then None
    else
      match Find(s[1..], pat)
      case Some(k) => Some(k + 1)
      case None => None
  }

  /** Where `Find` reports an occurrence, `pat` does occur. */
  lemma {:induction false} FindMatches(s: string, pat: string)
    requires pat != []
    ensures Find(s, pat).Some? ==> pat <= s[Find(s, pat).value..]
    decreases |s|
  {
    if !(pat <= s) && s != [] {
      FindMatches(s[1..], pat);
      if Find(s, pat).Some? {
        assert s[Find(s, pat).value..] == s[1..][Find(s[1..], pat).value..];
      }
    }
  }

  /** `Find` reports the first occurrence, and reports none only when there is none. */
  lemma {:induction false} FindIsFirst(s: string, pat: string)
    requires pat != []
    ensures Find(s, pat).Some? ==> forall k :: 0 <= k < Find(s, pat).value ==> !(pat <= s[k..])
    ensures Find(s, pat).None? ==> forall k :: 0 <= k <= |s| ==> !(pat <= s[k..])
    decreases |s|
  {
    if !(pat <= s) && s != [] {
      FindIsFirst(s[1..], pat);
      assert forall k :: 1 <= k <= |s| ==> s[k..] == s[1..][k - 1..];
    }
  }

}
