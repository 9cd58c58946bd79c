/**
 Paragraph text (_collapse in scripts/import_resenas.py): runs of non-blank lines are
 joined into one line each, blank lines separate paragraphs.
 */
module Paragraphs {

  // ----- str.strip

  predicate IsSpace(c: char) {
    || '\t' <= c <= '\r' || '\U{1C}' <= c <= ' ' || c == '\U{85}' || c == '\U{A0}' || c == '\U{1680}'
    || '\U{2000}' <= c <= '\U{200A}' || c == '\U{2028}' || c == '\U{2029}' || c == '\U{202F}'
    || c == '\U{205F}' || c == '\U{3000}'
  }

  function StripLeft(s: string): string {
    if s != "" && IsSpace(s[0]) then StripLeft(s[1..]) else s
  }

  function StripRight(s: string): string {
    if s != "" && IsSpace(s[|s| - 1]) then StripRight(s[..|s| - 1]) else s
  }

  function Strip(s: string): string {
    StripRight(StripLeft(s))
  }

  predicate Blank(s: string) {
    Strip(s) == ""
  }

  /** No space at either end. */
  predicate Trim(s: string) {
    s != "" && !IsSpace(s[0]) && !IsSpace(s[|s| - 1])
  }

  lemma {:induction false} TrimIsStripped(s: string)
    requires Trim(s)
    ensures Strip(s) == s && !Blank(s)
  {
  }

  lemma {:induction false} StripKeepsStart(s: string)
    requires s != "" && !IsSpace(s[0])
    ensures Strip(s) != "" && Strip(s)[0] == s[0]
    decreases |s|
  {
    if IsSpace(s[|s| - 1]) {
      StripKeepsStart(s[..|s| - 1]);
    }
  }

  lemma {:induction false} StripLeftEnds(s: string)
    ensures var t := StripLeft(s);
      && (t != "" ==> !IsSpace(t[0]))
      && (forall c :: c in t ==> c in s)
  {
    if s != "" && IsSpace(s[0]) {
      StripLeftEnds(s[1..]);
    }
  }

  lemma {:induction false} StripRightEnds(s: string)
    ensures var t := StripRight(s);
      && (t != "" ==> !IsSpace(t[|t| - 1]) && t[0] == s[0])
      && (forall c :: c in t ==> c in s)
  {
    if s != "" && IsSpace(s[|s| - 1]) {
      StripRightEnds(s[..|s| - 1]);
    }
  }

  /** What stripping leaves of a non-blank line has no space at its ends, and nothing new inside. */
  lemma {:induction false} StrippedIsTrim(s: string)
    requires !Blank(s)
    ensures Trim(Strip(s))
    ensures forall c :: c in Strip(s) ==> c in s
  {
    StripLeftEnds(s);
    StripRightEnds(StripLeft(s));
  }

  // ----- paragraphs

  function Join(parts: seq<string>, separator: string): string {
    if parts == [] then ""
    else if |parts| == 1 then parts[0]
    else parts[0] + separator + Join(parts[1..], separator)
  }

  function Whole(current: seq<string>): seq<seq<string>> {
    if current == [] then [] else [current]
  }

  /** The paragraphs of `lines`, when the lines `current` of the first have already been read. */
  function GroupsFrom(current: seq<string>, lines: seq<string>): seq<seq<string>>
    decreases lines
  {
    if lines == [] then Whole(current)
    else if Blank(lines[0]) then Whole(current) + GroupsFrom([], lines[1..])
    else GroupsFrom(current + [Strip(lines[0])], lines[1..])
  }

  function Groups(lines: seq<string>): seq<seq<string>> {
    GroupsFrom([], lines)
  }

  function JoinEach(groups: seq<seq<string>>): seq<string> {
    if groups == [] then [] else [Join(groups[0], " ")] + JoinEach(groups[1..])
  }

  function Collapsed(lines: seq<string>): string {
    Join(JoinEach(Groups(lines)), "\n\n")
  }

  lemma {:induction false} JoinEachAppends(a: seq<seq<string>>, b: seq<seq<string>>)
    ensures JoinEach(a + b) == JoinEach(a) + JoinEach(b)
  {
    if a == [] {
      assert a + b == b;
    } else {
      assert (a + b)[1..] == a[1..] + b;
      JoinEachAppends(a[1..], b);
    }
  }

  lemma {:induction false} TrailingBlankGroups(current: seq<string>, lines: seq<string>, last: string)
    requires Blank(last)
    ensures GroupsFrom(current, lines + [last]) == GroupsFrom(current, lines)
    decreases lines
  {
    if lines == [] {
      assert (lines + [last])[1..] == [];
      assert Whole(current) + GroupsFrom([], []) == Whole(current);
    } else {
      assert (lines + [last])[1..] == lines[1..] + [last];
      if Blank(lines[0]) {
        TrailingBlankGroups([], lines[1..], last);
      } else {
        TrailingBlankGroups(current + [Strip(lines[0])], lines[1..], last);
      }
    }
  }

  lemma {:induction false} GroupsNext(done: seq<seq<string>>, current: seq<string>, lines: seq<string>)
    requires lines != []
    ensures var all := done + GroupsFrom(current, lines);
      if !Blank(lines[0]) then all == done + GroupsFrom(current + [Strip(lines[0])], lines[1..])
      else if current != [] then all == (done + [current]) + GroupsFrom([], lines[1..])
      else all == done + GroupsFrom([], lines[1..])
  {
    assert Whole([]) + GroupsFrom([], lines[1..]) == GroupsFrom([], lines[1..]);
    assert done + ([current] + GroupsFrom([], lines[1..])) == (done + [current]) + GroupsFrom([], lines[1..]);
  }

  lemma {:induction false} JoinNext(done: seq<seq<string>>, current: seq<string>)
    ensures JoinEach(done + [current]) == JoinEach(done) + [Join(current, " ")]
  {
    JoinEachAppends(done, [current]);
    assert JoinEach([current]) == [Join(current, " ")];
  }

  method Collapse(lines: seq<string>) returns (text: string)
    ensures text == Collapsed(lines)
  {
    var rest := lines;
    while rest != [] && Blank(rest[0])
      invariant Groups(rest) == Groups(lines)
    {
      assert GroupsFrom([], rest) == Whole([]) + GroupsFrom([], rest[1..]);
      rest := rest[1..];
    }
    while rest != [] && Blank(rest[|rest| - 1])
      invariant Groups(rest) == Groups(lines)
    {
      TrailingBlankGroups([], rest[..|rest| - 1], rest[|rest| - 1]);
      assert rest[..|rest| - 1] + [rest[|rest| - 1]] == rest;
      rest := rest[..|rest| - 1];
    }
    var out: seq<string> := [];
    var current: seq<string> := [];
    ghost var done: seq<seq<string>> := [];
    for i := 0 to |rest|
      invariant done + GroupsFrom(current, rest[i..]) == Groups(lines)
      invariant out == JoinEach(done)
    {
      assert rest[i..][1..] == rest[i + 1..];
      GroupsNext(done, current, rest[i..]);
      if !Blank(rest[i]) {
        current := current + [Strip(rest[i])];
      } else if current != [] {
        JoinNext(done, current);
        out := out + [Join(current, " ")];
        done := done + [current];
        current := [];
      }
    }
    assert rest[|rest|..] == [];
    if current != [] {
      JoinNext(done, current);
      out := out + [Join(current, " ")];
    } else {
      assert done + [] == done;
    }
    text := Join(out, "\n\n");
  }

  // ----- laid-out paragraphs

  /** One paragraph as it stands in the file: its lines, and the blank lines after it. */
  datatype Laid = Laid(lines: seq<string>, gap: seq<string>)

  predicate WellLaid(p: Laid) {
    && p.lines != []
    && (forall i | 0 <= i < |p.lines| :: !Blank(p.lines[i]))
    && (forall i | 0 <= i < |p.gap| :: Blank(p.gap[i]))
  }

  /** Paragraphs are separated by at least one blank line. */
  predicate AllWellLaid(ps: seq<Laid>) {
    && (forall i | 0 <= i < |ps| :: WellLaid(ps[i]))
    && (forall i | 0 <= i < |ps| - 1 :: ps[i].gap != [])
  }

  function Lay(ps: seq<Laid>): seq<string> {
    if ps == [] then [] else ps[0].lines + ps[0].gap + Lay(ps[1..])
  }

  function StripAll(lines: seq<string>): seq<string> {
    seq(|lines|, i requires 0 <= i < |lines| => Strip(lines[i]))
  }

  function StripParagraphs(ps: seq<Laid>): seq<seq<string>> {
    if ps == [] then [] else [StripAll(ps[0].lines)] + StripParagraphs(ps[1..])
  }

  lemma {:induction false} GroupsReadLines(current: seq<string>, lines: seq<string>, rest: seq<string>)
    requires forall i | 0 <= i < |lines| :: !Blank(lines[i])
    ensures GroupsFrom(current, lines + rest) == GroupsFrom(current + StripAll(lines), rest)
    decreases lines
  {
    if lines == [] {
      assert lines + rest == rest && current + StripAll(lines) == current;
    } else {
      assert (lines + rest)[1..] == lines[1..] + rest;
      GroupsReadLines(current + [Strip(lines[0])], lines[1..], rest);
      assert current + [Strip(lines[0])] + StripAll(lines[1..]) == current + StripAll(lines);
    }
  }

  lemma {:induction false} GroupsSkipBlanks(gap: seq<string>, rest: seq<string>)
    requires forall i | 0 <= i < |gap| :: Blank(gap[i])
    ensures GroupsFrom([], gap + rest) == GroupsFrom([], rest)
  {
    if gap == [] {
      assert gap + rest == rest;
    } else {
      assert (gap + rest)[1..] == gap[1..] + rest;
      GroupsSkipBlanks(gap[1..], rest);
    }
  }

  lemma {:induction false} GroupsEndAtGap(current: seq<string>, gap: seq<string>, rest: seq<string>)
    requires current != [] && gap != []
    requires forall i | 0 <= i < |gap| :: Blank(gap[i])
    ensures GroupsFrom(current, gap + rest) == [current] + GroupsFrom([], rest)
  {
    assert (gap + rest)[1..] == gap[1..] + rest;
    GroupsSkipBlanks(gap[1..], rest);
  }

  /** However the lines are indented and spaced out, exactly the laid-out paragraphs are read back. */
  lemma {:induction false} LaidParagraphsAreRead(ps: seq<Laid>)
    requires AllWellLaid(ps)
    ensures Groups(Lay(ps)) == StripParagraphs(ps)
  {
    if ps != [] {
      var p, rest := ps[0], Lay(ps[1..]);
      LaidParagraphsAreRead(ps[1..]);
      assert p.lines + p.gap + rest == p.lines + (p.gap + rest);
      GroupsReadLines([], p.lines, p.gap + rest);
      assert [] + StripAll(p.lines) == StripAll(p.lines);
      if p.gap != [] {
        GroupsEndAtGap(StripAll(p.lines), p.gap, rest);
      } else {
        assert ps[1..] == [];
        assert p.gap + rest == [];
      }
    }
  }

  /** Collapsing gives the laid-out paragraphs, each on one line, an empty line between them. */
  lemma {:induction false} CollapseReadsLaidParagraphs(lead: seq<string>, ps: seq<Laid>)
    requires forall i | 0 <= i < |lead| :: Blank(lead[i])
    requires AllWellLaid(ps)
    ensures Collapsed(lead + Lay(ps)) == Join(JoinEach(StripParagraphs(ps)), "\n\n")
  {
    GroupsSkipBlanks(lead, Lay(ps));
    LaidParagraphsAreRead(ps);
  }

  // ----- collapsing twice

  /** The characters at which str.splitlines breaks a text. */
  predicate IsBreak(c: char) {
    '\n' <= c <= '\r' || '\U{1C}' <= c <= '\U{1E}' || c == '\U{85}' || c == '\U{2028}' || c == '\U{2029}'
  }

  /** str.splitlines; a carriage return and newline are one break. */
  function SplitFrom(current: string, text: string): seq<string>
    decreases |text|
  {
    if text == "" then (if current == "" then [] else [current])
    else if IsBreak(text[0]) then
      [current] + SplitFrom("", if "\r\n" <= text then text[2..] else text[1..])
    else SplitFrom(current + [text[0]], text[1..])
  }

  function SplitLines(text: string): seq<string> {
    SplitFrom("", text)
  }

  predicate OneLine(s: string) {
    forall c :: c in s ==> !IsBreak(c)
  }

  /** The lines of joined paragraphs: one each, an empty line in between. */
  function Interleave(texts: seq<string>): seq<string> {
    if |texts| <= 1 then texts else [texts[0], ""] + Interleave(texts[1..])
  }

  lemma {:induction false} SplitReadsLine(current: string, line: string, rest: string)
    requires OneLine(line)
    ensures SplitFrom(current, line + rest) == SplitFrom(current + line, rest)
    decreases line
  {
    if line == "" {
      assert line + rest == rest && current + line == current;
    } else {
      assert (line + rest)[1..] == line[1..] + rest;
      assert line == [line[0]] + line[1..];
      SplitReadsLine(current + [line[0]], line[1..], rest);
      assert current + [line[0]] + line[1..] == current + line;
    }
  }

  /** An empty line ends the line before it and is one itself. */
  lemma {:induction false} SplitAtEmptyLine(current: string, rest: string)
    ensures SplitFrom(current, "\n\n" + rest) == [current, ""] + SplitFrom("", rest)
  {
    var once, twice := "\n" + rest, "\n\n" + rest;
    assert twice[0] == '\n' && twice[1..] == once;
    assert once[0] == '\n' && once[1..] == rest;
    assert SplitFrom(current, twice) == [current] + SplitFrom("", once);
    assert SplitFrom("", once) == [""] + SplitFrom("", rest);
  }

  lemma {:induction false} SplitUndoesJoin(texts: seq<string>)
    requires forall i | 0 <= i < |texts| :: texts[i] != "" && OneLine(texts[i])
    ensures SplitLines(Join(texts, "\n\n")) == Interleave(texts)
  {
    if |texts| == 1 {
      SplitReadsLine("", texts[0], "");
      assert texts[0] + "" == texts[0] && "" + texts[0] == texts[0];
    } else if |texts| > 1 {
      var rest := Join(texts[1..], "\n\n");
      SplitUndoesJoin(texts[1..]);
      assert texts[0] + "\n\n" + rest == texts[0] + ("\n\n" + rest);
      SplitReadsLine("", texts[0], "\n\n" + rest);
      assert "" + texts[0] == texts[0];
      SplitAtEmptyLine(texts[0], rest);
    }
  }

  lemma {:induction false} InterleavedGroups(texts: seq<string>)
    requires forall i | 0 <= i < |texts| :: Trim(texts[i])
    ensures JoinEach(Groups(Interleave(texts))) == texts
  {
    if |texts| == 1 {
      TrimIsStripped(texts[0]);
      GroupsReadLines([], texts, []);
      assert texts + [] == texts && [] + StripAll(texts) == [texts[0]];
      assert Groups(texts) == [[texts[0]]];
      assert JoinEach([[texts[0]]]) == [texts[0]];
    } else if |texts| > 1 {
      var lines, rest := Interleave(texts), Interleave(texts[1..]);
      TrimIsStripped(texts[0]);
      InterleavedGroups(texts[1..]);
      assert lines == [texts[0]] + ([""] + rest);
      GroupsReadLines([], [texts[0]], [""] + rest);
      assert [] + StripAll([texts[0]]) == [texts[0]];
      GroupsEndAtGap([texts[0]], [""], rest);
      assert Groups(lines) == [[texts[0]]] + GroupsFrom([], rest);
      assert Groups(lines)[1..] == GroupsFrom([], rest);
    }
  }

  lemma {:induction false} JoinedLinesAreTrim(lines: seq<string>)
    requires lines != []
    requires forall i | 0 <= i < |lines| :: Trim(lines[i]) && OneLine(lines[i])
    ensures Trim(Join(lines, " ")) && OneLine(Join(lines, " "))
  {
    if |lines| > 1 {
      JoinedLinesAreTrim(lines[1..]);
    }
  }

  predicate GoodGroup(group: seq<string>) {
    group != [] && forall i | 0 <= i < |group| :: Trim(group[i]) && OneLine(group[i])
  }

  lemma {:induction false} GroupsAreGood(current: seq<string>, lines: seq<string>)
    requires current == [] || GoodGroup(current)
    requires forall i | 0 <= i < |lines| :: OneLine(lines[i])
    ensures forall k | 0 <= k < |GroupsFrom(current, lines)| :: GoodGroup(GroupsFrom(current, lines)[k])
    decreases lines
  {
    if lines != [] {
      if Blank(lines[0]) {
        GroupsAreGood([], lines[1..]);
      } else {
        StrippedIsTrim(lines[0]);
        assert GoodGroup(current + [Strip(lines[0])]);
        GroupsAreGood(current + [Strip(lines[0])], lines[1..]);
      }
    }
  }

  lemma {:induction false} GoodGroupsJoinToTrim(groups: seq<seq<string>>)
    requires forall k | 0 <= k < |groups| :: GoodGroup(groups[k])
    ensures forall i | 0 <= i < |JoinEach(groups)| :: Trim(JoinEach(groups)[i]) && OneLine(JoinEach(groups)[i])
  {
    if groups != [] {
      GoodGroupsJoinToTrim(groups[1..]);
      JoinedLinesAreTrim(groups[0]);
    }
  }

  /** Collapsing the lines of a collapsed text gives the same text. */
  lemma {:induction false} CollapseIsIdempotent(lines: seq<string>)
    requires forall i | 0 <= i < |lines| :: OneLine(lines[i])
    ensures Collapsed(SplitLines(Collapsed(lines))) == Collapsed(lines)
  {
    var texts := JoinEach(Groups(lines));
    GroupsAreGood([], lines);
    GoodGroupsJoinToTrim(Groups(lines));
    SplitUndoesJoin(texts);
    InterleavedGroups(texts);
  }
}
