/**
 The two regular expressions of scripts/import_resenas.py, on lines without line breaks.

 Each is given twice: as the ways in which a line can be put together from the pieces the
 expression names, and as a function that takes the line apart.
 */
module Headings {
  import opened Prelude
  import opened Paragraphs

  // ----- runs of characters

  predicate All(s: string, p: char -> bool) {
    forall i | 0 <= i < |s| :: p(s[i])
  }

  /** The longest start of `s` whose characters all satisfy `p`. */
  function Lead(s: string, p: char -> bool): (r: string)
    ensures |r| <= |s| && r == s[..|r|] && All(r, p)
    ensures |r| < |s| ==> !p(s[|r|])
  {
    if s == "" || !p(s[0]) then "" else [s[0]] + Lead(s[1..], p)
  }

  function Rest(s: string, p: char -> bool): string {
    s[|Lead(s, p)|..]
  }

  lemma {:induction false} LeadIsForced(run: string, rest: string, p: char -> bool)
    requires All(run, p) && (rest != "" ==> !p(rest[0]))
    ensures Lead(run + rest, p) == run && Rest(run + rest, p) == rest
  {
    if run == "" {
      assert run + rest == rest;
    } else {
      assert (run + rest)[1..] == run[1..] + rest;
      LeadIsForced(run[1..], rest, p);
      assert run == [run[0]] + run[1..];
    }
    assert (run + rest)[|run|..] == rest;
  }

  /** The text before and after the last occurrence of a character. */
  function SplitLast(s: string, c: char): (r: Option<(string, string)>)
    ensures r.Some? ==> s == r.value.0 + [c] + r.value.1 && c !in r.value.1
  {
    if s == "" then None
    else
      match SplitLast(s[1..], c)
      case Some(parts) => Some(([s[0]] + parts.0, parts.1))
      case None => if s[0] == c && c !in s[1..] then Some(("", s[1..])) else None
  }

  lemma {:induction false} NoneToSplit(s: string, c: char)
    requires c !in s
    ensures SplitLast(s, c) == None
  {
    if s != "" {
      NoneToSplit(s[1..], c);
    }
  }

  lemma {:induction false} LastIsForced(before: string, c: char, after: string)
    requires c !in after
    ensures SplitLast(before + [c] + after, c) == Some((before, after))
  {
    var s := before + [c] + after;
    if before == "" {
      assert s == [c] + after && s[1..] == after;
      NoneToSplit(after, c);
    } else {
      LastIsForced(before[1..], c, after);
      assert s[1..] == before[1..] + [c] + after;
      assert SplitLast(s[1..], c) == Some((before[1..], after));
      assert before == [before[0]] + before[1..] && s[0] == before[0];
    }
  }

  // ----- the heading

  /** The zeros of the scripts whose decimal digits \d matches; the other nine follow each. */
  predicate IsZero(z: int) {
    z in {
      0x30, 0x660, 0x6F0, 0x7C0, 0x966, 0x9E6, 0xA66, 0xAE6, 0xB66, 0xBE6, 0xC66, 0xCE6, 0xD66, 0xDE6, 0xE50, 0xED0,
      0xF20, 0x1040, 0x1090, 0x17E0, 0x1810, 0x1946, 0x19D0, 0x1A80, 0x1A90, 0x1B50, 0x1BB0, 0x1C40, 0x1C50, 0xA620,
      0xA8D0, 0xA900, 0xA9D0, 0xA9F0, 0xAA50, 0xABF0, 0xFF10, 0x104A0, 0x10D30, 0x11066, 0x110F0, 0x11136, 0x111D0,
      0x112F0, 0x11450, 0x114D0, 0x11650, 0x116C0, 0x11730, 0x118E0, 0x11950, 0x11C50, 0x11D50, 0x11DA0, 0x16A60,
      0x16AC0, 0x16B50, 0x1D7CE, 0x1D7D8, 0x1D7E2, 0x1D7EC, 0x1D7F6, 0x1E140, 0x1E2F0, 0x1E950, 0x1FBF0}
  }

  predicate IsDigit(c: char) {
    exists z | c as int - 10 < z <= c as int :: IsZero(z)
  }

  predicate IsStar(c: char) {
    c == '\U{2605}'
  }

  predicate IsHollow(c: char) {
    c == '\U{2606}'
  }

  const DASH := '\U{2014}'

  /** Hashes, space, number and dot, space, name, space, dash, space, stars, and space at the end. */
  datatype HeaderParts = HeaderParts(
    gap1: string, number: string, gap2: string, name: string, gap3: string, gap4: string,
    stars: string, hollow: string, end: string)
  {
    predicate Fits() {
      && gap1 != "" && All(gap1, IsSpace) && number != "" && All(number, IsDigit)
      && gap2 != "" && All(gap2, IsSpace) && name != "" && gap3 != "" && All(gap3, IsSpace)
      && gap4 != "" && All(gap4, IsSpace) && stars != "" && All(stars, IsStar)
      && All(hollow, IsHollow) && All(end, IsSpace)
    }

    function Title(): string {
      gap2 + name + gap3
    }

    function Rating(): string {
      gap4 + (stars + (hollow + end))
    }

    function Text(): string {
      "##" + (gap1 + (number + ("." + (Title() + [DASH] + Rating()))))
    }
  }

  /** The heading expression matches, and this is the name, stripped, and the number of stars. */
  ghost predicate HeaderMatches(line: string, name: string, stars: nat) {
    exists p: HeaderParts :: p.Fits() && p.Text() == line && Strip(p.name) == name && |p.stars| == stars
  }

  /** The number of filled stars, if the text is a rating. */
  function StarsIn(text: string): Option<nat> {
    var stars := Rest(text, IsSpace);
    var end := Rest(Rest(stars, IsStar), IsHollow);
    if Lead(text, IsSpace) == "" || Lead(stars, IsStar) == "" || !All(end, IsSpace) then None
    else Some(|Lead(stars, IsStar)|)
  }

  /** The name in a title, which has space at both ends. */
  function NameIn(title: string): Option<string> {
    if |title| < 3 || !IsSpace(title[0]) || !IsSpace(title[|title| - 1]) then None else Some(Strip(title))
  }

  /** Name and stars of a line that is a heading. */
  function HeaderOf(line: string): Option<(string, nat)> {
    if !("##" <= line) then None
    else
      var number := Rest(line[2..], IsSpace);
      var dotted := Rest(number, IsDigit);
      if Lead(line[2..], IsSpace) == "" || Lead(number, IsDigit) == "" || !("." <= dotted) then None
      else
        match SplitLast(dotted[1..], DASH)
        case None => None
        case Some((title, rating)) =>
          match (NameIn(title), StarsIn(rating))
          case (Some(name), Some(stars)) => Some((name, stars))
          case _ => None
  }

  // ----- stripping

  lemma {:induction false} StripLeftIgnores(gap: string, s: string)
    requires All(gap, IsSpace)
    ensures StripLeft(gap + s) == StripLeft(s)
  {
    if gap == "" {
      assert gap + s == s;
    } else {
      assert (gap + s)[1..] == gap[1..] + s;
      StripLeftIgnores(gap[1..], s);
    }
  }

  lemma {:induction false} StripRightIgnores(s: string, gap: string)
    requires All(gap, IsSpace)
    ensures StripRight(s + gap) == StripRight(s)
  {
    if gap == "" {
      assert s + gap == s;
    } else {
      var n := |gap| - 1;
      assert (s + gap)[..|s + gap| - 1] == s + gap[..n];
      StripRightIgnores(s, gap[..n]);
    }
  }

  lemma {:induction false} StripLeftOfSum(s: string, t: string)
    ensures StripLeft(s + t) == if All(s, IsSpace) then StripLeft(t) else StripLeft(s) + t
  {
    if s == "" {
      assert s + t == t;
    } else if IsSpace(s[0]) {
      assert (s + t)[1..] == s[1..] + t;
      StripLeftOfSum(s[1..], t);
      assert All(s, IsSpace) <==> All(s[1..], IsSpace) by {
        assert s == [s[0]] + s[1..];
      }
    } else {
      assert !All(s, IsSpace);
    }
  }

  /** Space around a text makes no difference to what stripping leaves of it. */
  lemma {:induction false} StripIgnores(gap: string, s: string, gap': string)
    requires All(gap, IsSpace) && All(gap', IsSpace)
    ensures Strip(gap + s + gap') == Strip(s)
  {
    assert gap + s + gap' == gap + (s + gap');
    StripLeftIgnores(gap, s + gap');
    StripLeftOfSum(s, gap');
    if All(s, IsSpace) {
      StripLeftIgnores(s, "");
      StripLeftIgnores(gap', "");
      assert s + "" == s && gap' + "" == gap';
    } else {
      StripRightIgnores(StripLeft(s), gap');
    }
  }

  // ----- the heading: the function finds what the expression matches

  lemma {:induction false} ZerosLie(z: int)
    requires IsZero(z)
    ensures z == 0x30 || 0x660 <= z <= 0x1090 || 0x17E0 <= z <= 0x1C50 || z >= 0xA620
  {
  }

  lemma {:induction false} DigitsLie(c: char)
    requires IsDigit(c)
    ensures var n := c as int;
      0x30 <= n < 0x3A || 0x660 <= n < 0x109A || 0x17E0 <= n < 0x1C5A || n >= 0xA620
  {
    var z :| c as int - 10 < z <= c as int && IsZero(z);
    ZerosLie(z);
  }

  lemma {:induction false} DigitsAreNeither(c: char)
    requires IsDigit(c)
    ensures c != '.' && !IsSpace(c)
  {
    DigitsLie(c);
  }

  lemma {:induction false} StarsAreForced(gap: string, stars: string, hollow: string, end: string)
    requires gap != "" && stars != ""
    requires All(gap, IsSpace) && All(stars, IsStar) && All(hollow, IsHollow) && All(end, IsSpace)
    ensures StarsIn(gap + (stars + (hollow + end))) == Some(|stars|)
  {
    LeadIsForced(gap, stars + (hollow + end), IsSpace);
    LeadIsForced(stars, hollow + end, IsStar);
    LeadIsForced(hollow, end, IsHollow);
  }

  lemma {:induction false} NoDash(s: string, p: char -> bool)
    requires All(s, p) && !p(DASH)
    ensures DASH !in s
  {
  }

  lemma {:induction false} RatingIsRead(p: HeaderParts)
    requires p.Fits()
    ensures StarsIn(p.Rating()) == Some(|p.stars|) && DASH !in p.Rating()
  {
    StarsAreForced(p.gap4, p.stars, p.hollow, p.end);
    NoDash(p.gap4, IsSpace);
    NoDash(p.stars, IsStar);
    NoDash(p.hollow, IsHollow);
    NoDash(p.end, IsSpace);
  }

  lemma {:induction false} TitleIsRead(p: HeaderParts)
    requires p.Fits()
    ensures NameIn(p.Title()) == Some(Strip(p.name))
  {
    StripIgnores(p.gap2, p.name, p.gap3);
    assert p.Title()[|p.Title()| - 1] == p.gap3[|p.gap3| - 1];
  }

  lemma {:induction false} HeaderIsRead(p: HeaderParts)
    requires p.Fits()
    ensures HeaderOf(p.Text()) == Some((Strip(p.name), |p.stars|))
  {
    var line, tail := p.Text(), p.Title() + [DASH] + p.Rating();
    DigitsAreNeither(p.number[0]);
    assert line[2..] == p.gap1 + (p.number + ("." + tail));
    LeadIsForced(p.gap1, p.number + ("." + tail), IsSpace);
    assert !IsDigit('.') by {
      if IsDigit('.') {
        DigitsAreNeither('.');
      }
    }
    LeadIsForced(p.number, "." + tail, IsDigit);
    assert ("." + tail)[1..] == tail;
    RatingIsRead(p);
    TitleIsRead(p);
    LastIsForced(p.Title(), DASH, p.Rating());
  }

  lemma {:induction false} LeadAndRest(s: string, p: char -> bool)
    ensures s == Lead(s, p) + Rest(s, p) && All(Lead(s, p), p)
  {
  }

  /** A text taken for a rating is one. */
  lemma {:induction false} PartsOfRating(text: string) returns (gap: string, stars: string, hollow: string, end: string)
    requires StarsIn(text).Some?
    ensures gap != "" && stars != "" && StarsIn(text) == Some(|stars|)
    ensures All(gap, IsSpace) && All(stars, IsStar) && All(hollow, IsHollow) && All(end, IsSpace)
    ensures text == gap + (stars + (hollow + end))
  {
    var more := Rest(text, IsSpace);
    var less := Rest(more, IsStar);
    LeadAndRest(text, IsSpace);
    LeadAndRest(more, IsStar);
    LeadAndRest(less, IsHollow);
    gap, stars, hollow, end := Lead(text, IsSpace), Lead(more, IsStar), Lead(less, IsHollow), Rest(less, IsHollow);
  }

  /** A title is a name with space around it. */
  lemma {:induction false} PartsOfTitle(title: string) returns (gap: string, name: string, gap': string)
    requires NameIn(title).Some?
    ensures gap != "" && name != "" && gap' != "" && All(gap, IsSpace) && All(gap', IsSpace)
    ensures title == gap + name + gap' && NameIn(title) == Some(Strip(name))
  {
    var last := |title| - 1;
    gap, name, gap' := title[..1], title[1..last], title[last..];
    StripIgnores(gap, name, gap');
  }

  lemma {:induction false} PartsOfNumber(line: string) returns (gap: string, number: string, tail: string)
    requires HeaderOf(line).Some?
    ensures gap != "" && number != "" && All(gap, IsSpace) && All(number, IsDigit)
    ensures line == "##" + (gap + (number + ("." + tail)))
    ensures SplitLast(tail, DASH).Some? && NameIn(SplitLast(tail, DASH).value.0).Some?
    ensures StarsIn(SplitLast(tail, DASH).value.1).Some?
    ensures HeaderOf(line) == Some((NameIn(SplitLast(tail, DASH).value.0).value,
                                    StarsIn(SplitLast(tail, DASH).value.1).value))
  {
    var more := Rest(line[2..], IsSpace);
    var dotted := Rest(more, IsDigit);
    LeadAndRest(line[2..], IsSpace);
    LeadAndRest(more, IsDigit);
    gap, number, tail := Lead(line[2..], IsSpace), Lead(more, IsDigit), dotted[1..];
    assert dotted == "." + tail;
    assert line == "##" + line[2..];
  }

  /** A line taken for a heading is one. */
  lemma {:induction false} PartsOf(line: string) returns (p: HeaderParts)
    requires HeaderOf(line).Some?
    ensures p.Fits() && p.Text() == line
    ensures HeaderOf(line) == Some((Strip(p.name), |p.stars|))
  {
    var gap1, number, tail := PartsOfNumber(line);
    var title, rating := SplitLast(tail, DASH).value.0, SplitLast(tail, DASH).value.1;
    var gap2, name, gap3 := PartsOfTitle(title);
    var gap4, stars, hollow, end := PartsOfRating(rating);
    p := HeaderParts(gap1, number, gap2, name, gap3, gap4, stars, hollow, end);
    assert p.Title() == title && p.Rating() == rating;
  }

  /** The function finds name and stars exactly as the expression does, in whatever way it matches. */
  lemma {:induction false} HeaderOfMatches(line: string, name: string, stars: nat)
    ensures HeaderOf(line) == Some((name, stars)) <==> HeaderMatches(line, name, stars)
  {
    forall p: HeaderParts | p.Fits() && p.Text() == line ensures HeaderOf(line) == Some((Strip(p.name), |p.stars|)) {
      HeaderIsRead(p);
    }
    if HeaderOf(line) == Some((name, stars)) {
      var p := PartsOf(line);
    }
  }

  lemma {:induction false} HeadingStart(line: string)
    requires HeaderOf(line).Some?
    ensures line != "" && line[0] == '#'
  {
  }

  // ----- the metadata line

  const DOT := '\U{B7}'

  /** Asterisk, city, a dot between spaces, date, asterisk, and space at the end. */
  datatype MetaParts = MetaParts(city: string, before: char, after: char, date: string, end: string) {
    predicate Fits() {
      city != "" && IsSpace(before) && IsSpace(after) && date != "" && All(end, IsSpace)
    }

    function Inner(): string {
      city + [before, DOT, after] + date
    }

    function Text(): string {
      "*" + Inner() + "*" + end
    }
  }

  /** Of all ways to put the line together this has the shortest city. */
  ghost predicate Shortest(line: string, p: MetaParts) {
    p.Fits() && p.Text() == line && forall q: MetaParts :: q.Fits() && q.Text() == line ==> |p.city| <= |q.city|
  }

  /** The metadata expression, with a lazy city, matches, and this is the city, stripped. */
  ghost predicate MetaMatches(line: string, city: string) {
    exists p: MetaParts :: Shortest(line, p) && Strip(p.city) == city
  }

  /** There is a dot between spaces at `i`, with something before and after it. */
  predicate DotAt(inner: string, i: nat) {
    1 <= i && i + 3 < |inner| && IsSpace(inner[i]) && inner[i + 1] == DOT && IsSpace(inner[i + 2])
  }

  function FirstDot(inner: string, from: nat): (r: Option<nat>)
    requires from <= |inner|
    ensures r.Some? ==> from <= r.value && DotAt(inner, r.value) && forall i | from <= i < r.value :: !DotAt(inner, i)
    ensures r.None? ==> forall i | from <= i :: !DotAt(inner, i)
    decreases |inner| - from
  {
    if from == |inner| then None else if DotAt(inner, from) then Some(from) else FirstDot(inner, from + 1)
  }

  /** The text between the asterisks of a line. */
  function InnerOf(line: string): Option<string> {
    var s := StripRight(line);
    if |s| < 2 || s[0] != '*' || s[|s| - 1] != '*' then None else Some(s[1..|s| - 1])
  }

  /** The city of a line that is a metadata line. */
  function CityIn(line: string): Option<string> {
    match InnerOf(line)
    case None => None
    case Some(inner) =>
      match FirstDot(inner, 0)
      case None => None
      case Some(i) => Some(Strip(inner[..i]))
  }

  lemma {:induction false} InnerIsForced(inner: string, end: string)
    requires All(end, IsSpace)
    ensures InnerOf("*" + inner + "*" + end) == Some(inner)
  {
    var s := "*" + inner + "*";
    StripRightIgnores(s, end);
    assert StripRight(s) == s;
    assert s[1..|s| - 1] == inner;
  }

  lemma {:induction false} StripRightSplits(s: string)
    ensures var t := StripRight(s);
      |t| <= |s| && s[..|t|] == t && All(s[|t|..], IsSpace)
  {
    if s != "" && IsSpace(s[|s| - 1]) {
      var init, t := s[..|s| - 1], StripRight(s);
      StripRightSplits(init);
      assert s[|t|..] == init[|t|..] + [s[|s| - 1]];
    }
  }

  /** The ways in which a metadata line can be put together are the places of a dot between its asterisks. */
  lemma {:induction false} PartsAreDots(line: string, i: nat)
    ensures (InnerOf(line).Some? && DotAt(InnerOf(line).value, i))
      <==> exists p: MetaParts :: p.Fits() && p.Text() == line && |p.city| == i
  {
    if InnerOf(line).Some? && DotAt(InnerOf(line).value, i) {
      var inner := InnerOf(line).value;
      var s := StripRight(line);
      StripRightSplits(line);
      var p := MetaParts(inner[..i], inner[i], inner[i + 2], inner[i + 3..], line[|s|..]);
      assert p.Inner() == inner;
      assert s == "*" + inner + "*";
      assert p.Text() == s + line[|s|..];
      assert p.Fits() && p.Text() == line && |p.city| == i;
    }
    forall p: MetaParts | p.Fits() && p.Text() == line && |p.city| == i
      ensures InnerOf(line).Some? && DotAt(InnerOf(line).value, i)
    {
      InnerIsForced(p.Inner(), p.end);
    }
  }

  lemma {:induction false} CityOfParts(line: string, p: MetaParts)
    requires p.Fits() && p.Text() == line
    ensures InnerOf(line) == Some(p.Inner()) && p.Inner()[..|p.city|] == p.city
  {
    InnerIsForced(p.Inner(), p.end);
  }

  lemma {:induction false} FirstIsShortest(line: string) returns (p: MetaParts)
    requires CityIn(line).Some?
    ensures Shortest(line, p) && CityIn(line) == Some(Strip(p.city))
  {
    var i := FirstDot(InnerOf(line).value, 0).value;
    PartsAreDots(line, i);
    p :| p.Fits() && p.Text() == line && |p.city| == i;
    CityOfParts(line, p);
    forall q: MetaParts | q.Fits() && q.Text() == line ensures i <= |q.city| {
      PartsAreDots(line, |q.city|);
    }
  }

  lemma {:induction false} ShortestIsFirst(line: string, p: MetaParts)
    requires Shortest(line, p)
    ensures CityIn(line) == Some(Strip(p.city))
  {
    CityOfParts(line, p);
    PartsAreDots(line, |p.city|);
    var i := FirstDot(p.Inner(), 0).value;
    PartsAreDots(line, i);
  }

  /** The function finds the city exactly as the expression does. */
  lemma {:induction false} CityInMatches(line: string, city: string)
    ensures CityIn(line) == Some(city) <==> MetaMatches(line, city)
  {
    if CityIn(line) == Some(city) {
      var p := FirstIsShortest(line);
    }
    forall p: MetaParts | Shortest(line, p) ensures CityIn(line) == Some(Strip(p.city)) {
      ShortestIsFirst(line, p);
    }
  }

  lemma {:induction false} MetadataStart(line: string)
    requires CityIn(line).Some?
    ensures line != "" && line[0] == '*'
  {
    StripRightEnds(line);
  }
}
