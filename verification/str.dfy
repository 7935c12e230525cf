/**
 * The handful of Python string operations the plugin relies on, over `string`
 * (a sequence of Unicode scalar values): `str.isspace`, `strip()`, `strip(chars)`,
 * `split(sep)`, `join`, `startswith`, `endswith`, `lower()` and `replace(old, "")`.
 */
module Str {

  /** `str.isspace()`, which is also what the regular-expression class `\s` accepts. */
  predicate IsSpace(c: char) {
    || c == ' '
    || ('\t' <= c <= '\r')
    || ('\U{1c}' <= c <= '\U{1f}')
    || c == '\U{85}' || c == '\U{a0}' || c == '\U{1680}'
    || ('\U{2000}' <= c <= '\U{200a}')
    || c == '\U{2028}' || c == '\U{2029}' || c == '\U{202f}' || c == '\U{205f}' || c == '\U{3000}'
  }

  /** Neither end of `s` is white space. */
  predicate Trimmed(s: string) {
    s == [] || (!IsSpace(s[0]) && !IsSpace(s[|s| - 1]))
  }

  predicate AllSpace(s: string) {
    forall i :: 0 <= i < |s| ==> IsSpace(s[i])
  }

  predicate StartsWith(s: string, prefix: string) {
    |prefix| <= |s| && s[..|prefix|] == prefix
  }

  predicate EndsWith(s: string, suffix: string) {
    |suffix| <= |s| && s[|s| - |suffix|..] == suffix
  }

  /** The characters a strip removes: white space for `strip()`, a given set for `strip(chars)`. */
  datatype CharClass = Spaces | Among(chars: set<char>)

  predicate InClass(cls: CharClass, c: char) {
    match cls
    case Spaces => IsSpace(c)
    case Among(chars) => c in chars
  }

  /** Drops leading characters of the class. */
  function DropLeading(s: string, cls: CharClass): (r: string)
    ensures |r| <= |s| && r == s[|s| - |r|..]
    ensures r == [] || !InClass(cls, r[0])
  {
    if s != [] && InClass(cls, s[0]) then DropLeading(s[1..], cls) else s
  }

  /** Drops trailing characters of the class. */
  function DropTrailing(s: string, cls: CharClass): (r: string)
    ensures |r| <= |s| && r == s[..|r|]
    ensures r == [] || !InClass(cls, r[|r| - 1])
  {
    if s != [] && InClass(cls, s[|s| - 1]) then DropTrailing(s[..|s| - 1], cls) else s
  }

  /** Removes characters of the class from both ends. */
  function Strip(s: string, cls: CharClass): (r: string)
    ensures r == [] || (!InClass(cls, r[0]) && !InClass(cls, r[|r| - 1]))
    ensures forall c :: c in r ==> c in s
  {
    var left := DropLeading(s, cls);
    assert forall c :: c in left ==> c in s by {
      forall c | c in left ensures c in s {
        var i :| 0 <= i < |left| && left[i] == c;
        assert s[|s| - |left| + i] == c;
      }
    }
    DropTrailing(left, cls)
  }

  /** `s.strip()`: both ends freed of white space. */
  function Trim(s: string): (r: string)
    ensures Trimmed(r)
    ensures forall c :: c in r ==> c in s
  {
    Strip(s, Spaces)
  }

  /** `s.strip(chars)`: removes every character of `chars` from both ends, as a set of characters and not as a prefix. */
  function StripChars(s: string, chars: set<char>): (r: string)
    ensures r == [] || (r[0] !in chars && r[|r| - 1] !in chars)
  {
    Strip(s, Among(chars))
  }

  /** Dropping a leading run of the class stops at the first character outside it. */
  lemma {:induction false} DropLeadingExact(pre: string, x: string, cls: CharClass)
    requires forall i :: 0 <= i < |pre| ==> InClass(cls, pre[i])
    requires x == [] || !InClass(cls, x[0])
    ensures DropLeading(pre + x, cls) == x
  {
    var s := pre + x;
    if pre != [] {
      assert s[0] == pre[0] && InClass(cls, s[0]);
      assert s[1..] == pre[1..] + x;
      DropLeadingExact(pre[1..], x, cls);
    } else {
      assert s == x;
    }
  }

  /** Dropping a trailing run of the class stops at the last character outside it. */
  lemma {:induction false} DropTrailingExact(x: string, post: string, cls: CharClass)
    requires forall i :: 0 <= i < |post| ==> InClass(cls, post[i])
    requires x == [] || !InClass(cls, x[|x| - 1])
    ensures DropTrailing(x + post, cls) == x
  {
    if post != [] {
      var shorter := post[..|post| - 1];
      assert (x + post)[..|x + post| - 1] == x + shorter;
      DropTrailingExact(x, shorter, cls);
    } else {
      assert x + post == x;
    }
  }

  /** Stripping `pre + x + post` gives `x` when the class covers `pre` and `post` and neither end of `x`. */
  lemma StripExact(pre: string, x: string, post: string, cls: CharClass)
    requires forall i :: 0 <= i < |pre| ==> InClass(cls, pre[i])
    requires forall i :: 0 <= i < |post| ==> InClass(cls, post[i])
    requires x == [] || (!InClass(cls, x[0]) && !InClass(cls, x[|x| - 1]))
    ensures Strip(pre + x + post, cls) == x
  {
    if x == [] {
      assert pre + x + post == (pre + post) + [];
      DropLeadingExact(pre + post, [], cls);
    } else {
      assert pre + x + post == pre + (x + post);
      DropLeadingExact(pre, x + post, cls);
      DropTrailingExact(x, post, cls);
    }
  }

  /** `strip()` of white space, a trimmed text and white space is that text. */
  lemma TrimExact(pre: string, x: string, post: string)
    requires AllSpace(pre) && AllSpace(post) && Trimmed(x)
    ensures Trim(pre + x + post) == x
  {
    StripExact(pre, x, post, Spaces);
  }

  /** `strip(chars)` of characters from `chars`, a text whose ends are not in `chars`, and characters from `chars` is that text. */
  lemma StripCharsExact(pre: string, x: string, post: string, chars: set<char>)
    requires forall i :: 0 <= i < |pre| ==> pre[i] in chars
    requires forall i :: 0 <= i < |post| ==> post[i] in chars
    requires x == [] || (x[0] !in chars && x[|x| - 1] !in chars)
    ensures StripChars(pre + x + post, chars) == x
  {
    StripExact(pre, x, post, Among(chars));
  }

  /** `s.split(sep)` for a one-character separator: never empty, and no piece holds the separator. */
  function Split(s: string, sep: char): (parts: seq<string>)
    ensures |parts| >= 1
    ensures forall k :: 0 <= k < |parts| ==> sep !in parts[k]
  {
    if s == [] then [[]]
    else
      var rest := Split(s[1..], sep);
      if s[0] == sep then [[]] + rest else [[s[0]] + rest[0]] + rest[1..]
  }

  /** `sep.join(parts)`. */
  function Join(parts: seq<string>, sep: string): string {
    if |parts| == 0 then []
    else if |parts| == 1 then parts[0]
    else parts[0] + sep + Join(parts[1..], sep)
  }

  /** Joining the pieces of a split with the separator gives the original text back. */
  lemma {:induction false} SplitJoin(s: string, sep: char)
    ensures Join(Split(s, sep), [sep]) == s
  {
    if s != [] {
      SplitJoin(s[1..], sep);
      var rest := Split(s[1..], sep);
      if s[0] == sep {
        assert s == [sep] + s[1..];
      } else if |rest| == 1 {
        assert s == [s[0]] + rest[0];
      } else {
        assert Join(rest, [sep]) == rest[0] + [sep] + Join(rest[1..], [sep]);
        assert s == [s[0]] + s[1..];
      }
    }
  }

  /** Splitting at the first separator: the text before it is the first piece. */
  lemma {:induction false} SplitAtFirst(x: string, sep: char, y: string)
    requires sep !in x
    ensures Split(x + [sep] + y, sep) == [x] + Split(y, sep)
  {
    if x == [] {
      assert x + [sep] + y == [sep] + y;
      assert ([sep] + y)[1..] == y;
    } else {
      assert (x + [sep] + y)[1..] == x[1..] + [sep] + y;
      SplitAtFirst(x[1..], sep, y);
      assert [x[0]] + x[1..] == x;
    }
  }

  /** A text without the separator splits into itself alone. */
  lemma {:induction false} SplitNone(x: string, sep: char)
    requires sep !in x
    ensures Split(x, sep) == [x]
  {
    if x != [] {
      SplitNone(x[1..], sep);
      assert [x[0]] + x[1..] == x;
    }
  }

  /** A character in neither the pieces nor the separator is not in their join. */
  lemma {:induction false} JoinWithout(parts: seq<string>, sep: string, c: char)
    requires forall k :: 0 <= k < |parts| ==> c !in parts[k]
    requires c !in sep
    ensures c !in Join(parts, sep)
  {
    if |parts| > 1 {
      JoinWithout(parts[1..], sep, c);
    }
  }

  /** A join of non-empty pieces starts with the first piece's first character and ends with the last piece's last. */
  lemma {:induction false} JoinEdges(parts: seq<string>, sep: string)
    requires |parts| > 0
    requires forall k :: 0 <= k < |parts| ==> parts[k] != []
    ensures var j := Join(parts, sep); j != [] && j[0] == parts[0][0] && j[|j| - 1] == parts[|parts| - 1][|parts[|parts| - 1]| - 1]
  {
    if |parts| > 1 {
      JoinEdges(parts[1..], sep);
    }
  }

  /** When neither outer end of the pieces is in `chars`, neither end of their join is. */
  lemma JoinEdgesOutside(parts: seq<string>, sep: string, chars: set<char>)
    requires |parts| > 0
    requires forall k :: 0 <= k < |parts| ==> parts[k] != []
    requires parts[0][0] !in chars && parts[|parts| - 1][|parts[|parts| - 1]| - 1] !in chars
    ensures var j := Join(parts, sep); j != [] && j[0] !in chars && j[|j| - 1] !in chars
  {
    JoinEdges(parts, sep);
  }

  /**
   * The entries of a bracketed list: `[n.strip() for n in parts if n.strip()]`.
   */
  function Entries(parts: seq<string>): (names: seq<string>)
    ensures |names| <= |parts|
    ensures forall k :: 0 <= k < |names| ==> names[k] != [] && Trimmed(names[k])
  {
    if parts == [] then []
    else
      var n := Trim(parts[0]);
      if n == [] then Entries(parts[1..]) else [n] + Entries(parts[1..])
  }

  /**
   * Cutting `w + n1 + ", " + n2 + ", " + ...` at its commas and trimming the pieces gives the names
   * back, when the names are non-empty, trimmed and free of commas and `w` is white space.
   */
  lemma {:induction false} EntriesOfJoined(w: string, names: seq<string>)
    requires AllSpace(w) && ',' !in w
    requires forall k :: 0 <= k < |names| ==> names[k] != [] && Trimmed(names[k]) && ',' !in names[k]
    ensures Entries(Split(w + Join(names, ", "), ',')) == names
    decreases |names|
  {
    if names == [] {
      EntriesOfBlank(w);
    } else if |names| == 1 {
      EntriesOfOne(w, names[0]);
    } else {
      var first, rest := w + names[0], Join(names[1..], ", ");
      JoinStep(w, names);
      SplitAtFirst(first, ',', " " + rest);
      TrimExact(w, names[0], []);
      assert first + [] == first;
      EntriesCons(first, Split(" " + rest, ','));
      assert Entries(Split(w + Join(names, ", "), ',')) == [names[0]] + Entries(Split(" " + rest, ','));
      assert AllSpace(" ") && ',' !in " ";
      CleanTail(names);
      EntriesOfJoined(" ", names[1..]);
      HeadTail(names);
    }
  }

  lemma CleanTail(names: seq<string>)
    requires names != []
    requires forall k :: 0 <= k < |names| ==> names[k] != [] && Trimmed(names[k]) && ',' !in names[k]
    ensures forall k :: 0 <= k < |names[1..]| ==> names[1..][k] != [] && Trimmed(names[1..][k]) && ',' !in names[1..][k]
  {
  }

  lemma HeadTail<T>(xs: seq<T>)
    requires xs != []
    ensures [xs[0]] + xs[1..] == xs
  {
  }

  lemma JoinStep(w: string, names: seq<string>)
    requires |names| > 1
    ensures w + Join(names, ", ") == (w + names[0]) + [','] + (" " + Join(names[1..], ", "))
  {
    var rest := Join(names[1..], ", ");
    assert Join(names, ", ") == names[0] + ", " + rest;
    assert ", " == [','] + " ";
  }

  lemma EntriesOfBlank(w: string)
    requires AllSpace(w) && ',' !in w
    ensures Entries(Split(w + Join([], ", "), ',')) == []
  {
    assert w + Join([], ", ") == w;
    SplitNone(w, ',');
    TrimExact(w, [], []);
    assert w + [] + [] == w;
  }

  lemma EntriesOfOne(w: string, n: string)
    requires AllSpace(w) && ',' !in w
    requires n != [] && Trimmed(n) && ',' !in n
    ensures Entries(Split(w + Join([n], ", "), ',')) == [n]
  {
    assert w + Join([n], ", ") == w + n;
    SplitNone(w + n, ',');
    TrimExact(w, n, []);
    assert w + n + [] == w + n;
  }

  /** A piece that is not blank contributes its trimmed text, ahead of the rest. */
  lemma EntriesCons(x: string, ys: seq<string>)
    requires Trim(x) != []
    ensures Entries([x] + ys) == [Trim(x)] + Entries(ys)
  {
    assert ([x] + ys)[1..] == ys;
  }

  /** Trimming a slice never brings back a character the slice did not have. */
  lemma TrimKeepsOut(s: string, c: char)
    requires c !in s
    ensures c !in Trim(s)
  {
  }

  /** Entries of the pieces of a split never contain the separator. */
  lemma {:induction false} EntriesWithout(parts: seq<string>, c: char)
    requires forall k :: 0 <= k < |parts| ==> c !in parts[k]
    ensures forall k :: 0 <= k < |Entries(parts)| ==> c !in Entries(parts)[k]
  {
    if parts != [] {
      EntriesWithout(parts[1..], c);
      TrimKeepsOut(parts[0], c);
    }
  }

  /** `c.lower()` restricted to ASCII letters. */
  function LowerChar(c: char): char {
    if 'A' <= c <= 'Z' then (c as int + 32) as char else c
  }

  /** `s.lower()` restricted to ASCII letters. */
  function Lower(s: string): (r: string)
    ensures |r| == |s|
    ensures forall i :: 0 <= i < |s| ==> r[i] == LowerChar(s[i])
  {
    seq(|s|, i requires 0 <= i < |s| => LowerChar(s[i]))
  }

  /**
   * After `lower()` no ASCII capital is left, so lower-casing twice is lower-casing
   * once, and two texts that differ only in the case of ASCII letters lower-case alike.
   */
  lemma LowerIsLowerCase(s: string, t: string)
    ensures forall i :: 0 <= i < |Lower(s)| ==> !('A' <= Lower(s)[i] <= 'Z')
    ensures Lower(Lower(s)) == Lower(s)
    ensures |s| == |t| && (forall i :: 0 <= i < |s| ==> s[i] == t[i] || LowerChar(s[i]) == t[i] || s[i] == LowerChar(t[i])) ==>
      Lower(s) == Lower(t)
  {
    forall i | 0 <= i < |s|
      ensures LowerChar(LowerChar(s[i])) == LowerChar(s[i])
    {
    }
  }

  /** The two-character marker some nicknames carry: two DEL characters. */
  const Marker: string := ['\U{7f}', '\U{7f}']

  /** `s.replace("\x7f\x7f", "")`: one left-to-right pass removing non-overlapping markers. */
  function Scrub(s: string): (r: string)
    ensures |r| <= |s|
  {
    if |s| >= 2 && s[0] == '\U{7f}' && s[1] == '\U{7f}' then Scrub(s[2..])
    else if s == [] then []
    else [s[0]] + Scrub(s[1..])
  }

  /** No two DEL characters stand side by side. */
  predicate MarkerFree(s: string) {
    forall i :: 0 <= i < |s| - 1 ==> !(s[i] == '\U{7f}' && s[i + 1] == '\U{7f}')
  }

  /** A text that does not start with DEL keeps its first character through `Scrub`. */
  lemma ScrubHead(s: string)
    requires s != [] && s[0] != '\U{7f}'
    ensures Scrub(s) != [] && Scrub(s)[0] == s[0]
  {
  }

  /** After the replacement no marker is left, even where a run of DEL characters had odd length. */
  lemma {:induction false} ScrubLeavesNoMarker(s: string)
    ensures MarkerFree(Scrub(s))
  {
    if |s| >= 2 && s[0] == '\U{7f}' && s[1] == '\U{7f}' {
      ScrubLeavesNoMarker(s[2..]);
    } else if s != [] {
      ScrubLeavesNoMarker(s[1..]);
      var tail := Scrub(s[1..]);
      if s[0] == '\U{7f}' && |s| >= 2 {
        ScrubHead(s[1..]);
      }
      assert Scrub(s) == [s[0]] + tail;
    }
  }

  /** A text without DEL characters is left unchanged by `Scrub`. */
  lemma {:induction false} ScrubIdentity(s: string)
    requires '\U{7f}' !in s
    ensures Scrub(s) == s
  {
    if s != [] {
      ScrubIdentity(s[1..]);
      assert [s[0]] + s[1..] == s;
    }
  }
}
