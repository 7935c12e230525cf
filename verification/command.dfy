/**
 * The `$send_msg` chat command: `$send_msg [name1, name2] text group[group1, group2]`.
 *
 * The command is matched against the pattern
 *   ^\$send_msg\s*(\[[^\]]*\])?\s*(.*?)\s*(group\[[^\]]*\])?$
 * written out here by hand with the backtracking order of Python's `re.match`:
 * the optional receiver list is tried before doing without it, the lazy message
 * takes the first end position from which the rest of the pattern matches, `.`
 * never crosses a line break, and `$` holds at the end of the text or just before
 * a final line break. The bracketed parts are then cut into names with
 * `strip(chars)`, `split(',')` and `strip()`.
 */
module Command {
  import opened Wrappers
  import opened Str

  const Keyword: string := "$send_msg"
  const GroupOpen: string := "group["

  /** The characters `strip('[]')` removes from the receiver part. */
  const BracketChars: set<char> := {'[', ']'}

  /** The characters `strip('group[]')` removes from the group part: a set, not a prefix. */
  const GroupChars: set<char> := {'g', 'r', 'o', 'u', 'p', '[', ']'}

  /** What the command asks for: receiver names, the message, group names. */
  datatype Command = Command(receivers: seq<string>, message: string, groups: seq<string>)

  /** The three capture groups of the pattern. */
  datatype Captures = Captures(receiverPart: Option<string>, message: string, groupPart: Option<string>)

  /** `\s*` from i, greedy: the first position at or after i that is not white space. */
  function SkipSpaces(s: string, i: nat): (j: nat)
    requires i <= |s|
    ensures i <= j <= |s|
    decreases |s| - i
  {
    if i < |s| && IsSpace(s[i]) then SkipSpaces(s, i + 1) else i
  }

  /** `\s*` skips only white space and stops at the first character that is not. */
  lemma {:induction false} SkipSpacesSpec(s: string, i: nat)
    requires i <= |s|
    ensures forall k :: i <= k < SkipSpaces(s, i) ==> IsSpace(s[k])
    ensures SkipSpaces(s, i) == |s| || !IsSpace(s[SkipSpaces(s, i)])
    decreases |s| - i
  {
    if i < |s| && IsSpace(s[i]) {
      SkipSpacesSpec(s, i + 1);
    }
  }

  /** `[^\]]*\]` from i: the position of the first closing bracket at or after i. */
  function FindClose(s: string, i: nat): (r: Option<nat>)
    requires i <= |s|
    ensures r.Some? ==> i <= r.value < |s| && s[r.value] == ']'
    decreases |s| - i
  {
    if i == |s| then None
    else if s[i] == ']' then Some(i)
    else FindClose(s, i + 1)
  }

  /** `$`: the end of the text, or just before a line break that ends it. */
  predicate AtEnd(s: string, i: nat) {
    i == |s| || (i + 1 == |s| && s[i] == '\n')
  }

  /** `group\[` at f, compared character by character. */
  predicate GroupOpenAt(s: string, f: nat) {
    && f + |GroupOpen| <= |s|
    && s[f] == 'g' && s[f + 1] == 'r' && s[f + 2] == 'o' && s[f + 3] == 'u' && s[f + 4] == 'p' && s[f + 5] == '['
  }

  /** `group\[[^\]]*\]` at f, followed by `$`: the position just past its closing bracket. */
  function GroupEnd(s: string, f: nat): (r: Option<nat>)
    requires f <= |s|
    ensures r.Some? ==> f < r.value <= |s|
  {
    if GroupOpenAt(s, f) then
      match FindClose(s, f + |GroupOpen|)
      case Some(c) => if AtEnd(s, c + 1) then Some(c + 1) else None
      case None => None
    else None
  }

  /** The message may end at e: `\s*(group\[[^\]]*\])?$` matches from e. */
  predicate CanStop(s: string, e: nat)
    requires e <= |s|
  {
    var f := SkipSpaces(s, e);
    f == |s| || GroupEnd(s, f).Some?
  }

  /** The lazy `(.*?)` from e: the first position where the message may end, without crossing a line break. */
  function MessageEnd(s: string, e: nat): (r: Option<nat>)
    requires e <= |s|
    ensures r.Some? ==> e <= r.value <= |s|
    decreases |s| - e
  {
    if CanStop(s, e) then Some(e)
    else if e < |s| && s[e] != '\n' then MessageEnd(s, e + 1)
    else None
  }

  /**
   * The lazy message is the shortest one: it ends at a stopping point and crosses no line
   * break and no earlier stopping point.
   */
  lemma {:induction false} MessageEndIsFirstStop(s: string, e: nat)
    requires e <= |s| && MessageEnd(s, e).Some?
    ensures CanStop(s, MessageEnd(s, e).value)
    ensures forall k :: e <= k < MessageEnd(s, e).value ==> s[k] != '\n'
    ensures forall k {:trigger CanStop(s, k)} :: e <= k < MessageEnd(s, e).value ==> !CanStop(s, k)
    decreases |s| - e
  {
    if !CanStop(s, e) {
      MessageEndIsFirstStop(s, e + 1);
    }
  }

  /** A captured group part always reads `group[...]`. */
  predicate WellCaptured(cap: Captures) {
    cap.groupPart.Some? ==>
      var g := cap.groupPart.value;
      |g| > |GroupOpen| && StartsWith(g, GroupOpen) && g[|g| - 1] == ']'
  }

  /** The pattern after the receiver list and the white space behind it, with the message starting at q. */
  function MatchTail(s: string, q: nat, receiverPart: Option<string>): (r: Option<Captures>)
    requires q <= |s|
    ensures r.Some? ==> r.value.receiverPart == receiverPart
  {
    match MessageEnd(s, q)
    case None => None
    case Some(e) =>
      var f := SkipSpaces(s, e);
      var groupPart := if GroupEnd(s, f).Some? then Some(s[f..GroupEnd(s, f).value]) else None;
      Some(Captures(receiverPart, s[q..e], groupPart))
  }

  /** `\s*(\[[^\]]*\])\s*` and the rest, with the receiver list present at w. */
  function MatchWithList(s: string, w: nat): (r: Option<Captures>)
    requires w <= |s|
    ensures r.Some? ==> r.value.receiverPart.Some?
  {
    if w < |s| && s[w] == '[' then
      match FindClose(s, w + 1)
      case Some(c) => MatchTail(s, SkipSpaces(s, c + 1), Some(s[w..c + 1]))
      case None => None
    else None
  }

  /** `re.match(pattern, s)`: None when the pattern does not match; the receiver list is tried first. */
  function Match(s: string): (r: Option<Captures>)
    ensures r.Some? ==> StartsWith(s, Keyword)
  {
    if !StartsWith(s, Keyword) then None
    else
      var w := SkipSpaces(s, |Keyword|);
      var withList := MatchWithList(s, w);
      if withList.Some? then withList else MatchTail(s, w, None)
  }

  /** The names in a comma-separated list body: `[n.strip() for n in body.split(',') if n.strip()]`. */
  function ListNames(body: string): (names: seq<string>)
    ensures forall k :: 0 <= k < |names| ==> names[k] != [] && Trimmed(names[k]) && ',' !in names[k]
  {
    var pieces := Split(body, ',');
    EntriesWithout(pieces, ',');
    Entries(pieces)
  }

  /** The names of one bracketed part after stripping `chars` from its ends. */
  function Names(part: Option<string>, chars: set<char>): (names: seq<string>)
    ensures part.None? ==> names == []
    ensures forall k :: 0 <= k < |names| ==> names[k] != [] && Trimmed(names[k]) && ',' !in names[k]
  {
    if part.None? then [] else ListNames(StripChars(part.value, chars))
  }

  /**
   * `parse_send_msg_command`: None for a command the pattern rejects (the source raises
   * "命令格式不正确"), otherwise the receiver names, the message and the group names.
   */
  function ParseCommand(s: string): (r: Option<Command>)
    ensures !StartsWith(s, Keyword) ==> r.None?
  {
    match Match(s)
    case None => None
    case Some(cap) => Some(Command(Names(cap.receiverPart, BracketChars), cap.message, Names(cap.groupPart, GroupChars)))
  }

  // ---------------------------------------------------------------------------
  // What the parser guarantees for every command

  /** `\s*` is unchanged by starting one white-space character earlier. */
  lemma SkipSpacesFrom(s: string, i: nat)
    requires i < |s| && IsSpace(s[i])
    ensures SkipSpaces(s, i) == SkipSpaces(s, i + 1)
  {
  }

  /** White space in front of a stopping point is itself a stopping point. */
  lemma StopBehindSpace(s: string, e: nat)
    requires 0 < e <= |s| && IsSpace(s[e - 1]) && CanStop(s, e)
    ensures CanStop(s, e - 1)
  {
    SkipSpacesFrom(s, e - 1);
  }

  /** On a single line the lazy message can always run to the end of the text. */
  lemma {:induction false} MessageEndTotal(s: string, e: nat)
    requires e <= |s|
    requires forall k :: e <= k < |s| ==> s[k] != '\n'
    ensures MessageEnd(s, e).Some?
    decreases |s| - e
  {
    if e < |s| && !CanStop(s, e) {
      MessageEndTotal(s, e + 1);
    }
  }

  /** Every single-line command that starts with `$send_msg` is accepted. */
  lemma ParseTotalOnOneLine(s: string)
    requires StartsWith(s, Keyword) && '\n' !in s
    ensures ParseCommand(s).Some?
  {
    var w := SkipSpaces(s, |Keyword|);
    MessageEndTotal(s, w);
  }

  /** A lazy message that starts on a character outside white space is trimmed and on one line. */
  lemma TailMessageClean(s: string, q: nat, receiverPart: Option<string>)
    requires q <= |s| && (q == |s| || !IsSpace(s[q]))
    requires MatchTail(s, q, receiverPart).Some?
    ensures var m := MatchTail(s, q, receiverPart).value.message; Trimmed(m) && '\n' !in m
  {
    var e := MessageEnd(s, q).value;
    MessageEndIsFirstStop(s, q);
    var m := s[q..e];
    assert forall k :: 0 <= k < |m| ==> m[k] == s[q + k];
    if e > q && IsSpace(s[e - 1]) {
      StopBehindSpace(s, e);
      assert false;
    }
  }

  /** Every match is the tail of the pattern from the end of some stretch of white space. */
  lemma MatchIsTail(s: string) returns (p: nat, receiverPart: Option<string>)
    requires Match(s).Some?
    ensures p <= |s| && MatchTail(s, SkipSpaces(s, p), receiverPart) == Match(s)
  {
    var w := SkipSpaces(s, |Keyword|);
    if MatchWithList(s, w).Some? {
      assert Match(s) == MatchWithList(s, w);
      var c := WithListIsTail(s, w);
      p, receiverPart := c + 1, Some(s[w..c + 1]);
    } else {
      p, receiverPart := |Keyword|, None;
      assert Match(s) == MatchTail(s, w, receiverPart);
    }
  }

  /** A match with a receiver list is the tail of the pattern behind the list's closing bracket. */
  lemma WithListIsTail(s: string, w: nat) returns (c: nat)
    requires w <= |s| && MatchWithList(s, w).Some?
    ensures w < c < |s| && FindClose(s, w + 1) == Some(c)
    ensures MatchWithList(s, w) == MatchTail(s, SkipSpaces(s, c + 1), Some(s[w..c + 1]))
  {
    c := FindClose(s, w + 1).value;
  }

  /** The message of every accepted command is trimmed and holds no line break. */
  lemma MatchMessageClean(s: string)
    requires Match(s).Some?
    ensures Trimmed(Match(s).value.message) && '\n' !in Match(s).value.message
  {
    var p, receiverPart := MatchIsTail(s);
    SkipSpacesSpec(s, p);
    TailMessageClean(s, SkipSpaces(s, p), receiverPart);
  }

  /** Without a `[` anywhere in the command, neither bracketed part is captured. */
  lemma MatchWithoutBrackets(s: string)
    requires Match(s).Some? && '[' !in s
    ensures Match(s).value.receiverPart.None? && Match(s).value.groupPart.None?
  {
    var w := SkipSpaces(s, |Keyword|);
    assert MatchWithList(s, w).None?;
    TailWithoutBrackets(s, w, None);
  }

  /** A group part always holds a `[`. */
  lemma TailWithoutBrackets(s: string, q: nat, receiverPart: Option<string>)
    requires q <= |s| && '[' !in s
    requires MatchTail(s, q, receiverPart).Some?
    ensures MatchTail(s, q, receiverPart).value.groupPart.None?
  {
    var e := MessageEnd(s, q).value;
    var f := SkipSpaces(s, e);
  }

  /** A captured group part reads `group[`, then anything but `]`, then `]`. */
  lemma TailWellCaptured(s: string, q: nat, receiverPart: Option<string>)
    requires q <= |s| && MatchTail(s, q, receiverPart).Some?
    ensures WellCaptured(MatchTail(s, q, receiverPart).value)
  {
    var e := MessageEnd(s, q).value;
    var f := SkipSpaces(s, e);
    if GroupEnd(s, f).Some? {
      var g := s[f..GroupEnd(s, f).value];
      assert g[..|GroupOpen|] == GroupOpen;
    }
  }

  /** Every accepted command's group part, when present, reads `group[...]`. */
  lemma MatchWellCaptured(s: string)
    requires Match(s).Some?
    ensures WellCaptured(Match(s).value)
  {
    var p, receiverPart := MatchIsTail(s);
    TailWellCaptured(s, SkipSpaces(s, p), receiverPart);
  }

  /**
   * Whatever command is accepted: every receiver and group name is non-empty, trimmed and free
   * of commas, the message is trimmed and holds no line break, and without any `[` in the
   * command both name lists are empty.
   */
  lemma ParsedIsClean(s: string)
    requires ParseCommand(s).Some?
    ensures var c := ParseCommand(s).value;
      && (forall k :: 0 <= k < |c.receivers| ==> c.receivers[k] != [] && Trimmed(c.receivers[k]) && ',' !in c.receivers[k])
      && (forall k :: 0 <= k < |c.groups| ==> c.groups[k] != [] && Trimmed(c.groups[k]) && ',' !in c.groups[k])
      && Trimmed(c.message) && '\n' !in c.message
      && ('[' !in s ==> c.receivers == [] && c.groups == [])
  {
    MatchMessageClean(s);
    if '[' !in s {
      MatchWithoutBrackets(s);
    }
  }

  // ---------------------------------------------------------------------------
  // Writing a command out and reading it back

  /** A name the command grammar can carry: non-empty, trimmed, no comma and no bracket. */
  predicate NameOk(n: string) {
    n != [] && Trimmed(n) && ',' !in n && '[' !in n && ']' !in n
  }

  /** A message the command grammar can carry: trimmed, on one line, no opening bracket. */
  predicate MessageOk(m: string) {
    Trimmed(m) && '\n' !in m && '[' !in m
  }

  predicate Writable(c: Command) {
    && (forall k :: 0 <= k < |c.receivers| ==> NameOk(c.receivers[k]))
    && MessageOk(c.message)
    && (forall k :: 0 <= k < |c.groups| ==> NameOk(c.groups[k]))
  }

  /** The command text in the form the plugin's help text documents. */
  function Format(c: Command): string {
    Keyword + " [" + Join(c.receivers, ", ") + "] " + c.message + " " + GroupOpen + Join(c.groups, ", ") + "]"
  }

  /** `\s*` from i stops at j when everything between is white space and j is not. */
  lemma {:induction false} SkipSpacesTo(s: string, i: nat, j: nat)
    requires i <= j <= |s|
    requires forall k :: i <= k < j ==> IsSpace(s[k])
    requires j == |s| || !IsSpace(s[j])
    ensures SkipSpaces(s, i) == j
    decreases j - i
  {
    if i < j {
      SkipSpacesTo(s, i + 1, j);
    }
  }

  /** The first closing bracket at or after i. */
  lemma {:induction false} FindCloseAt(s: string, i: nat, c: nat)
    requires i <= c < |s| && s[c] == ']'
    requires forall k :: i <= k < c ==> s[k] != ']'
    ensures FindClose(s, i) == Some(c)
    decreases c - i
  {
    if i < c {
      FindCloseAt(s, i + 1, c);
    }
  }

  /** The lazy message ends at the first position where it may stop. */
  lemma {:induction false} MessageEndAt(s: string, e0: nat, e: nat)
    requires e0 <= e <= |s| && CanStop(s, e)
    requires forall k :: e0 <= k < e ==> s[k] != '\n' && !CanStop(s, k)
    ensures MessageEnd(s, e0) == Some(e)
    decreases e - e0
  {
    if e0 < e {
      MessageEndAt(s, e0 + 1, e);
    }
  }

  /** Where the bracket closing the receiver list sits in a written-out command. */
  function ListClose(j1: string): nat {
    11 + |j1|
  }

  /** Where the message starts in a written-out command. */
  function MessageStart(j1: string): nat {
    ListClose(j1) + 2
  }

  /** Where `group[` starts in a written-out command. */
  function GroupStart(j1: string, m: string): nat {
    MessageStart(j1) + |m| + 1
  }

  /** The keyword and the receiver list `[j1]` at the start of s. */
  predicate HeadLayout(s: string, j1: string) {
    var c := ListClose(j1);
    && c + 1 < |s|
    && s[..9] == Keyword && s[9] == ' ' && s[10] == '['
    && s[10..c + 1] == "[" + j1 + "]"
    && (forall k :: 0 <= k < |j1| ==> s[11 + k] == j1[k])
    && s[c] == ']' && s[c + 1] == ' '
  }

  /** The message m after the receiver list `[j1]`, followed by a space. */
  predicate MessageLayout(s: string, j1: string, m: string) {
    var mStart := MessageStart(j1);
    var mEnd := mStart + |m|;
    && mEnd < |s|
    && s[mStart..mEnd] == m
    && (forall k :: 0 <= k < |m| ==> s[mStart + k] == m[k])
    && s[mEnd] == ' '
  }

  /** The group part `group[j2]` closing s. */
  predicate GroupLayout(s: string, j1: string, m: string, j2: string) {
    var g0 := GroupStart(j1, m);
    && |s| == g0 + 7 + |j2|
    && s[g0..] == GroupOpen + j2 + "]"
    && (forall k :: 0 <= k < |j2| ==> s[g0 + 6 + k] == j2[k])
    && s[|s| - 1] == ']'
  }

  /** Where each part of a command `$send_msg [j1] m group[j2]` sits in its text `s`. */
  predicate Layout(s: string, j1: string, m: string, j2: string) {
    HeadLayout(s, j1) && MessageLayout(s, j1, m) && GroupLayout(s, j1, m, j2)
  }

  lemma FormatHead(c: Command)
    ensures HeadLayout(Format(c), Join(c.receivers, ", "))
  {
    var j1 := Join(c.receivers, ", ");
    var p1 := Keyword + " [";
    var p2 := p1 + j1;
    var p3 := p2 + "] ";
    var s := Format(c);
    assert s == p3 + (c.message + " " + GroupOpen + Join(c.groups, ", ") + "]");
    assert |p1| == 11 && |p2| == ListClose(j1);
    assert s[..9] == p1[..9] == Keyword;
    assert s[10..ListClose(j1) + 1] == p3[10..|p2| + 1] == "[" + j1 + "]";
  }

  lemma FormatMessage(c: Command)
    ensures MessageLayout(Format(c), Join(c.receivers, ", "), c.message)
  {
    var j1, m := Join(c.receivers, ", "), c.message;
    var p3 := Keyword + " [" + j1 + "] ";
    var p4 := p3 + m;
    var s := Format(c);
    assert s == p4 + (" " + GroupOpen + Join(c.groups, ", ") + "]");
    assert |p3| == MessageStart(j1);
    assert s[MessageStart(j1)..MessageStart(j1) + |m|] == p4[|p3|..] == m;
  }

  lemma FormatGroup(c: Command)
    ensures GroupLayout(Format(c), Join(c.receivers, ", "), c.message, Join(c.groups, ", "))
  {
    var j1, m, j2 := Join(c.receivers, ", "), c.message, Join(c.groups, ", ");
    var p5 := Keyword + " [" + j1 + "] " + m + " ";
    var s := Format(c);
    assert s == p5 + (GroupOpen + j2 + "]");
    assert |p5| == GroupStart(j1, m);
  }

  lemma FormatLayout(c: Command)
    ensures Layout(Format(c), Join(c.receivers, ", "), c.message, Join(c.groups, ", "))
  {
    FormatHead(c);
    FormatMessage(c);
    FormatGroup(c);
  }

  /** No stopping point lies inside a well-formed message: `group[` cannot start there. */
  lemma NoStopInsideMessage(s: string, m: string, mStart: nat, k: nat)
    requires MessageOk(m) && m != []
    requires mStart + |m| == |s| || (mStart + |m| < |s| && s[mStart + |m|] == ' ')
    requires forall i :: 0 <= i < |m| ==> s[mStart + i] == m[i]
    requires mStart <= k < mStart + |m|
    ensures s[k] != '\n' && !CanStop(s, k)
  {
    var mEnd := mStart + |m|;
    assert s[k] == m[k - mStart];
    assert s[mEnd - 1] == m[|m| - 1];
    var f := SkipSpaces(s, k);
    SkipSpacesSpec(s, k);
    assert f < mEnd;
    assert GroupOpen == ['g', 'r', 'o', 'u', 'p', '['];
    assert f + 5 < mEnd ==> s[f + 5] == m[f + 5 - mStart];
  }

  /** The group part of a laid-out command stops the message from the position `from`. */
  lemma LayoutGroupStops(s: string, j1: string, m: string, j2: string, from: nat)
    requires Layout(s, j1, m, j2) && ']' !in j2
    requires MessageStart(j1) + |m| <= from <= GroupStart(j1, m) || (m == [] && from == ListClose(j1) + 1)
    ensures from <= |s| && CanStop(s, from)
    ensures SkipSpaces(s, from) == GroupStart(j1, m) && GroupEnd(s, GroupStart(j1, m)) == Some(|s|)
  {
    var g0 := GroupStart(j1, m);
    assert IsSpace(' ') && !IsSpace('g');
    SkipSpacesTo(s, from, g0);
    GroupPartAt(s, g0, j2);
  }

  /** `group[j2]` closing the text is a group part that runs to its end. */
  lemma GroupPartAt(s: string, g0: nat, j2: string)
    requires g0 + 7 + |j2| == |s| && s[g0..] == GroupOpen + j2 + "]" && ']' !in j2
    ensures GroupEnd(s, g0) == Some(|s|)
  {
    var part := s[g0..];
    assert forall k :: 0 <= k < |j2| ==> s[g0 + 6 + k] == part[6 + k] == j2[k];
    assert GroupOpenAt(s, g0) by {
      assert part[..6] == GroupOpen;
    }
    FindCloseAt(s, g0 + 6, |s| - 1);
  }

  /** An empty message in a laid-out command: the lazy message is empty and starts at `group[`. */
  lemma EmptyMessageEnd(s: string, j1: string, m: string, j2: string)
    requires Layout(s, j1, m, j2) && ']' !in j2 && m == []
    ensures SkipSpaces(s, ListClose(j1) + 1) == GroupStart(j1, m)
    ensures MessageEnd(s, GroupStart(j1, m)) == Some(GroupStart(j1, m))
  {
    LayoutGroupStops(s, j1, m, j2, ListClose(j1) + 1);
    LayoutGroupStops(s, j1, m, j2, GroupStart(j1, m));
    MessageEndAt(s, GroupStart(j1, m), GroupStart(j1, m));
  }

  /** A well-formed message followed by a stopping point is taken whole by the lazy `(.*?)`. */
  lemma TextMessageEnd(s: string, m: string, mStart: nat)
    requires MessageOk(m) && m != []
    requires mStart + |m| == |s| || (mStart + |m| < |s| && s[mStart + |m|] == ' ')
    requires forall i :: 0 <= i < |m| ==> s[mStart + i] == m[i]
    requires CanStop(s, mStart + |m|)
    ensures MessageEnd(s, mStart) == Some(mStart + |m|)
  {
    var mEnd := mStart + |m|;
    forall k | mStart <= k < mEnd
      ensures s[k] != '\n' && !CanStop(s, k)
    {
      NoStopInsideMessage(s, m, mStart, k);
    }
    MessageEndAt(s, mStart, mEnd);
  }

  /** A non-empty message in a laid-out command is taken whole by the lazy message. */
  lemma MessageEndAfterText(s: string, j1: string, m: string, j2: string)
    requires Layout(s, j1, m, j2) && ']' !in j2 && MessageOk(m) && m != []
    ensures SkipSpaces(s, ListClose(j1) + 1) == MessageStart(j1)
    ensures MessageEnd(s, MessageStart(j1)) == Some(MessageStart(j1) + |m|)
  {
    var mStart := MessageStart(j1);
    assert IsSpace(' ');
    assert s[mStart] == m[0];
    SkipSpacesTo(s, ListClose(j1) + 1, mStart);
    LayoutGroupStops(s, j1, m, j2, mStart + |m|);
    TextMessageEnd(s, m, mStart);
  }

  /** What the tail captures once the message end and the group part are known. */
  lemma TailFromSteps(s: string, q: nat, e: nat, f: nat, receiverPart: Option<string>)
    requires q <= e <= f <= |s|
    requires MessageEnd(s, q) == Some(e) && SkipSpaces(s, e) == f && GroupEnd(s, f) == Some(|s|)
    ensures MatchTail(s, q, receiverPart) == Some(Captures(receiverPart, s[q..e], Some(s[f..])))
  {
    assert s[f..|s|] == s[f..];
  }

  /** What the pattern captures once the receiver list is known to close at c. */
  lemma MatchFromList(s: string, w: nat, c: nat, q: nat, tail: Captures)
    requires StartsWith(s, Keyword) && w < c < |s|
    requires SkipSpaces(s, |Keyword|) == w && s[w] == '[' && FindClose(s, w + 1) == Some(c)
    requires SkipSpaces(s, c + 1) == q && MatchTail(s, q, Some(s[w..c + 1])) == Some(tail)
    ensures Match(s) == Some(tail)
  {
    ListFromClose(s, w, c, q, tail);
  }

  /** The receiver-list branch of the pattern once the list is known to close at c. */
  lemma ListFromClose(s: string, w: nat, c: nat, q: nat, tail: Captures)
    requires w < c < |s| && s[w] == '[' && FindClose(s, w + 1) == Some(c)
    requires SkipSpaces(s, c + 1) == q && MatchTail(s, q, Some(s[w..c + 1])) == Some(tail)
    ensures MatchWithList(s, w) == Some(tail)
  {
  }

  /** What the pattern captures once every one of its steps is known. */
  lemma MatchFromSteps(s: string, w: nat, c: nat, q: nat, e: nat, f: nat)
    requires StartsWith(s, Keyword) && w < c < q <= e <= f <= |s|
    requires SkipSpaces(s, |Keyword|) == w && s[w] == '[' && FindClose(s, w + 1) == Some(c)
    requires SkipSpaces(s, c + 1) == q && MessageEnd(s, q) == Some(e)
    requires SkipSpaces(s, e) == f && GroupEnd(s, f) == Some(|s|)
    ensures Match(s) == Some(Captures(Some(s[w..c + 1]), s[q..e], Some(s[f..])))
  {
    TailFromSteps(s, q, e, f, Some(s[w..c + 1]));
    MatchFromList(s, w, c, q, Captures(Some(s[w..c + 1]), s[q..e], Some(s[f..])));
  }

  /** The keyword and the receiver list of a laid-out command. */
  lemma LayoutHead(s: string, j1: string)
    requires HeadLayout(s, j1) && ']' !in j1
    ensures StartsWith(s, Keyword) && SkipSpaces(s, |Keyword|) == 10 && s[10] == '['
    ensures FindClose(s, 10 + 1) == Some(ListClose(j1)) && s[10..ListClose(j1) + 1] == "[" + j1 + "]"
  {
    assert IsSpace(' ') && !IsSpace('[');
    SkipSpacesTo(s, |Keyword|, 10);
    FindCloseAt(s, 10 + 1, ListClose(j1));
  }

  /**
   * Where each step of the pattern lands on s: the keyword, the receiver list closing at
   * `ListClose(j1)`, the message from q to e and the group part from `GroupStart(j1, m)` to the end.
   */
  predicate Steps(s: string, j1: string, m: string, j2: string, q: nat, e: nat) {
    && 10 < ListClose(j1) < q <= e <= GroupStart(j1, m) <= |s| && StartsWith(s, Keyword)
    && SkipSpaces(s, |Keyword|) == 10 && s[10] == '[' && FindClose(s, 10 + 1) == Some(ListClose(j1))
    && SkipSpaces(s, ListClose(j1) + 1) == q && MessageEnd(s, q) == Some(e)
    && SkipSpaces(s, e) == GroupStart(j1, m) && GroupEnd(s, GroupStart(j1, m)) == Some(|s|)
    && s[10..ListClose(j1) + 1] == "[" + j1 + "]" && s[q..e] == m && s[GroupStart(j1, m)..] == GroupOpen + j2 + "]"
  }

  /** With every step known, the pattern captures the receiver list, the message and the group part. */
  lemma StepsCaptures(s: string, j1: string, m: string, j2: string, q: nat, e: nat)
    requires Steps(s, j1, m, j2, q, e)
    ensures Match(s) == Some(Captures(Some("[" + j1 + "]"), m, Some(GroupOpen + j2 + "]")))
  {
    MatchFromSteps(s, 10, ListClose(j1), q, e, GroupStart(j1, m));
  }

  lemma EmptySteps(s: string, j1: string, m: string, j2: string)
    requires Layout(s, j1, m, j2) && ']' !in j1 && ']' !in j2 && m == []
    ensures Steps(s, j1, m, j2, GroupStart(j1, m), GroupStart(j1, m))
  {
    LayoutHead(s, j1);
    EmptyMessageEnd(s, j1, m, j2);
    LayoutGroupStops(s, j1, m, j2, GroupStart(j1, m));
    assert s[GroupStart(j1, m)..GroupStart(j1, m)] == m;
  }

  lemma TextSteps(s: string, j1: string, m: string, j2: string)
    requires Layout(s, j1, m, j2) && ']' !in j1 && ']' !in j2 && MessageOk(m) && m != []
    ensures Steps(s, j1, m, j2, MessageStart(j1), MessageStart(j1) + |m|)
  {
    LayoutHead(s, j1);
    LayoutGroupStops(s, j1, m, j2, MessageStart(j1) + |m|);
    MessageEndAfterText(s, j1, m, j2);
  }

  lemma LayoutSteps(s: string, j1: string, m: string, j2: string) returns (q: nat, e: nat)
    requires Layout(s, j1, m, j2) && ']' !in j1 && ']' !in j2 && MessageOk(m)
    ensures Steps(s, j1, m, j2, q, e)
  {
    if m == [] {
      EmptySteps(s, j1, m, j2);
      q, e := GroupStart(j1, m), GroupStart(j1, m);
    } else {
      TextSteps(s, j1, m, j2);
      q, e := MessageStart(j1), MessageStart(j1) + |m|;
    }
  }

  lemma FormatSteps(c: Command) returns (q: nat, e: nat)
    requires Writable(c)
    ensures Steps(Format(c), Join(c.receivers, ", "), c.message, Join(c.groups, ", "), q, e)
  {
    FormatLayout(c);
    JoinWithout(c.receivers, ", ", ']');
    JoinWithout(c.groups, ", ", ']');
    q, e := LayoutSteps(Format(c), Join(c.receivers, ", "), c.message, Join(c.groups, ", "));
  }

  /** A well-formed command, written out, matches with exactly its three parts captured. */
  lemma FormatCaptures(c: Command)
    requires Writable(c)
    ensures Match(Format(c)) == Some(Captures(Some("[" + Join(c.receivers, ", ") + "]"), c.message,
                                              Some(GroupOpen + Join(c.groups, ", ") + "]")))
  {
    var q, e := FormatSteps(c);
    StepsCaptures(Format(c), Join(c.receivers, ", "), c.message, Join(c.groups, ", "), q, e);
  }

  // ---------------------------------------------------------------------------
  // Reading a written-out command back

  /** Neither end of the joined names is one of `chars`. */
  predicate EdgesOutside(names: seq<string>, chars: set<char>)
    requires forall k :: 0 <= k < |names| ==> names[k] != []
  {
    names != [] ==> names[0][0] !in chars && names[|names| - 1][|names[|names| - 1]| - 1] !in chars
  }

  /** Stripping `chars` from `pre + names joined + "]"` leaves the joined names. */
  lemma StripJoined(names: seq<string>, pre: string, chars: set<char>)
    requires forall k :: 0 <= k < |names| ==> names[k] != []
    requires EdgesOutside(names, chars)
    requires forall i :: 0 <= i < |pre| ==> pre[i] in chars
    requires ']' in chars
    ensures StripChars(pre + Join(names, ", ") + "]", chars) == Join(names, ", ")
  {
    var j := Join(names, ", ");
    if names != [] {
      JoinEdgesOutside(names, ", ", chars);
    } else {
      assert j == [];
    }
    assert forall i :: 0 <= i < |"]"| ==> "]"[i] in chars;
    StripCharsExact(pre, j, "]", chars);
  }

  /** Splitting joined names at the commas and trimming the pieces gives the names back. */
  lemma ListNamesOfJoined(names: seq<string>)
    requires forall k :: 0 <= k < |names| ==> names[k] != [] && Trimmed(names[k]) && ',' !in names[k]
    ensures ListNames(Join(names, ", ")) == names
  {
    EntriesOfJoined([], names);
    assert [] + Join(names, ", ") == Join(names, ", ");
  }

  /** Stripping `chars` from `pre + names joined + "]"` and splitting at the commas gives the names back. */
  lemma NamesOfJoined(names: seq<string>, pre: string, chars: set<char>)
    requires forall k :: 0 <= k < |names| ==> names[k] != [] && Trimmed(names[k]) && ',' !in names[k]
    requires EdgesOutside(names, chars)
    requires forall i :: 0 <= i < |pre| ==> pre[i] in chars
    requires ']' in chars
    ensures Names(Some(pre + Join(names, ", ") + "]"), chars) == names
  {
    StripJoined(names, pre, chars);
    ListNamesOfJoined(names);
  }

  /**
   * A well-formed command written out is read back as itself, provided the group names do not
   * begin or end with one of the characters of `group[]`, which the source strips from both ends.
   */
  lemma ParseFormatRoundTrip(c: Command)
    requires Writable(c)
    requires EdgesOutside(c.groups, GroupChars)
    ensures ParseCommand(Format(c)) == Some(c)
  {
    FormatCaptures(c);
    ParseOfMatch(Format(c), Captures(Some("[" + Join(c.receivers, ", ") + "]"), c.message,
                                     Some(GroupOpen + Join(c.groups, ", ") + "]")));
    ReceiversRead(c);
    GroupsRead(c);
  }

  /** The parse of a matched command is made of its three captures. */
  lemma ParseOfMatch(s: string, cap: Captures)
    requires Match(s) == Some(cap)
    ensures ParseCommand(s) == Some(Command(Names(cap.receiverPart, BracketChars), cap.message, Names(cap.groupPart, GroupChars)))
  {
  }

  /** `strip('group[]')` removes every character of `group[`. */
  lemma GroupOpenStripped()
    ensures forall i :: 0 <= i < |GroupOpen| ==> GroupOpen[i] in GroupChars
  {
    assert GroupOpen == ['g', 'r', 'o', 'u', 'p', '['];
  }

  /** The group part of a well-formed command is read back as its groups when their edges survive the strip. */
  lemma GroupsRead(c: Command)
    requires Writable(c) && EdgesOutside(c.groups, GroupChars)
    ensures Names(Some(GroupOpen + Join(c.groups, ", ") + "]"), GroupChars) == c.groups
  {
    GroupOpenStripped();
    NamesOfJoined(c.groups, GroupOpen, GroupChars);
  }

  /** The receiver list of a well-formed command is read back as its receivers. */
  lemma ReceiversRead(c: Command)
    requires Writable(c)
    ensures Names(Some("[" + Join(c.receivers, ", ") + "]"), BracketChars) == c.receivers
  {
    NamesOfJoined(c.receivers, "[", BracketChars);
  }

  /**
   * `strip('group[]')` also eats the group name's own letters: a single group named
   * `pre + x + post`, where pre and post are made of the letters of `group` (as in `gour` + `met`
   * for `gourmet`), is read back as the group `x`.
   */
  lemma GroupNameEdgesLost(c: Command, pre: string, x: string, post: string)
    requires Writable(c) && c.groups == [pre + x + post]
    requires forall i :: 0 <= i < |pre| ==> pre[i] in GroupChars
    requires forall i :: 0 <= i < |post| ==> post[i] in GroupChars
    requires NameOk(x) && x[0] !in GroupChars && x[|x| - 1] !in GroupChars
    ensures ParseCommand(Format(c)) == Some(Command(c.receivers, c.message, [x]))
  {
    FormatCaptures(c);
    ParseOfMatch(Format(c), Captures(Some("[" + Join(c.receivers, ", ") + "]"), c.message,
                                     Some(GroupOpen + Join(c.groups, ", ") + "]")));
    ReceiversRead(c);
    assert Join(c.groups, ", ") == pre + x + post;
    GroupNameStripped(pre, x, post);
  }

  /** The group part `group[pre + x + post]` names the single group x. */
  lemma GroupNameStripped(pre: string, x: string, post: string)
    requires forall i :: 0 <= i < |pre| ==> pre[i] in GroupChars
    requires forall i :: 0 <= i < |post| ==> post[i] in GroupChars
    requires NameOk(x) && x[0] !in GroupChars && x[|x| - 1] !in GroupChars
    ensures Names(Some(GroupOpen + (pre + x + post) + "]"), GroupChars) == [x]
  {
    assert GroupOpen + (pre + x + post) + "]" == (GroupOpen + pre) + x + (post + "]");
    StripCharsExact(GroupOpen + pre, x, post + "]", GroupChars);
    ListNamesOfJoined([x]);
    assert Join([x], ", ") == x;
  }

  // ---------------------------------------------------------------------------
  // The command without a group part

  /** The command text without a group part: `$send_msg [names] message`. */
  function FormatPlain(c: Command): string {
    Keyword + " [" + Join(c.receivers, ", ") + "] " + c.message
  }

  lemma FormatPlainHead(c: Command)
    ensures HeadLayout(FormatPlain(c), Join(c.receivers, ", "))
    ensures |FormatPlain(c)| == MessageStart(Join(c.receivers, ", ")) + |c.message|
    ensures forall k :: 0 <= k < |c.message| ==> FormatPlain(c)[MessageStart(Join(c.receivers, ", ")) + k] == c.message[k]
  {
    var j1 := Join(c.receivers, ", ");
    var p1 := Keyword + " [";
    var p2 := p1 + j1;
    var p3 := p2 + "] ";
    var s := FormatPlain(c);
    assert s == p3 + c.message;
    assert |p1| == 11 && |p2| == ListClose(j1) && |p3| == MessageStart(j1);
    assert s[..9] == p1[..9] == Keyword;
    assert s[10..ListClose(j1) + 1] == p3[10..|p2| + 1] == "[" + j1 + "]";
  }

  /** The message runs from q to the end of the text: no group part is captured. */
  lemma TailToEnd(s: string, q: nat, receiverPart: Option<string>)
    requires q <= |s| && MessageEnd(s, q) == Some(|s|)
    ensures MatchTail(s, q, receiverPart) == Some(Captures(receiverPart, s[q..], None))
  {
    assert !GroupOpenAt(s, |s|);
    assert s[q..|s|] == s[q..];
  }

  /** A well-formed message m closing s after a space at `mStart - 1` is the rest of the text for the lazy message. */
  lemma MessageToEnd(s: string, m: string, mStart: nat) returns (q: nat)
    requires MessageOk(m) && 0 < mStart && mStart + |m| == |s| && s[mStart - 1] == ' '
    requires forall k :: 0 <= k < |m| ==> s[mStart + k] == m[k]
    ensures mStart <= q <= |s|
    ensures SkipSpaces(s, mStart - 1) == q && MessageEnd(s, q) == Some(|s|) && s[q..] == m
  {
    assert IsSpace(' ');
    if m == [] {
      q := |s|;
      SkipSpacesTo(s, mStart - 1, |s|);
      MessageEndAt(s, |s|, |s|);
    } else {
      q := mStart;
      assert s[mStart] == m[0];
      SkipSpacesTo(s, mStart - 1, mStart);
      assert CanStop(s, |s|);
      TextMessageEnd(s, m, mStart);
    }
    assert s[q..] == m;
  }

  /** Nothing after the message: the pattern stops at the end of the text, with no group part. */
  lemma PlainCaptures(c: Command)
    requires Writable(c)
    ensures Match(FormatPlain(c)) == Some(Captures(Some("[" + Join(c.receivers, ", ") + "]"), c.message, None))
  {
    var s, j1 := FormatPlain(c), Join(c.receivers, ", ");
    FormatPlainHead(c);
    JoinWithout(c.receivers, ", ", ']');
    LayoutHead(s, j1);
    var q := MessageToEnd(s, c.message, MessageStart(j1));
    var tail := Captures(Some("[" + j1 + "]"), c.message, None);
    TailToEnd(s, q, Some(s[10..ListClose(j1) + 1]));
    MatchFromList(s, 10, ListClose(j1), q, tail);
  }

  /** A well-formed command without groups, written without a group part, is read back as itself. */
  lemma PlainRoundTrip(c: Command)
    requires Writable(c) && c.groups == []
    ensures ParseCommand(FormatPlain(c)) == Some(c)
  {
    PlainCaptures(c);
    ParseOfMatch(FormatPlain(c), Captures(Some("[" + Join(c.receivers, ", ") + "]"), c.message, None));
    ReceiversRead(c);
  }

  // ---------------------------------------------------------------------------
  // The group part read by position instead of by stripping characters

  /** The text between `group[` and the closing `]` of a captured group part. */
  function GroupBody(part: string): (body: string)
    ensures |part| > |GroupOpen| ==> |body| == |part| - |GroupOpen| - 1
  {
    if |part| > |GroupOpen| then part[|GroupOpen|..|part| - 1] else []
  }

  /** `parse_send_msg_command` with the group names cut out of `group[...]` by position. */
  function ParseCommandFixed(s: string): (r: Option<Command>)
    ensures r.None? <==> ParseCommand(s).None?
    ensures r.Some? ==> r.value.receivers == ParseCommand(s).value.receivers && r.value.message == ParseCommand(s).value.message
  {
    match Match(s)
    case None => None
    case Some(cap) =>
      var groups := if cap.groupPart.None? then [] else ListNames(GroupBody(cap.groupPart.value));
      Some(Command(Names(cap.receiverPart, BracketChars), cap.message, groups))
  }

  /** Every well-formed command written out is read back as itself by the corrected parser. */
  lemma FixedRoundTrip(c: Command)
    requires Writable(c)
    ensures ParseCommandFixed(Format(c)) == Some(c)
  {
    FormatCaptures(c);
    ReceiversRead(c);
    var j2 := Join(c.groups, ", ");
    assert GroupBody(GroupOpen + j2 + "]") == j2;
    ListNamesOfJoined(c.groups);
  }
}
