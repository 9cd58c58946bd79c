/** The review-file scanner (_parse in scripts/import_resenas.py). */
module ReviewFile {
  import opened Prelude
  import opened Paragraphs
  import opened Headings

  datatype Review = Review(name: string, city: Option<string>, rating: nat, body: string, reply: Option<string>)

  const REPLY_LABEL: string := "**Respuesta del restaurante**:"

  predicate IsRule(line: string) {
    Strip(line) == "---"
  }

  predicate IsQuote(line: string) {
    Strip(line) != "" && Strip(line)[0] == '>'
  }

  predicate IsBlank(line: string) {
    Blank(line)
  }

  /** One leading '>' and one space after it are taken off. */
  function Unquote(raw: string): string {
    if raw == "" || raw[0] != '>' then raw
    else if |raw| > 1 && IsSpace(raw[1]) then raw[2..]
    else raw[1..]
  }

  function Unlabel(reply: string): string {
    if REPLY_LABEL <= reply then StripLeft(reply[|REPLY_LABEL|..]) else reply
  }

  function ReplyOf(lines: seq<string>): Option<string> {
    var reply := Unlabel(Collapsed(lines));
    if reply == "" then None else Some(reply)
  }

  // ----- what the scanner reads

  /** What kind of line this is to the text of an entry. */
  datatype Kind = Rule | Quote | Empty | Other

  function KindOf(line: string): Kind {
    if IsRule(line) then Rule else if IsQuote(line) then Quote else if IsBlank(line) then Empty else Other
  }

  function SkipBlanks(lines: seq<string>): (rest: seq<string>)
    ensures |rest| <= |lines|
  {
    if lines != [] && KindOf(lines[0]) == Empty then SkipBlanks(lines[1..]) else lines
  }

  /** The body lines, the reply lines, and the lines that belong to no text read so far. */
  datatype Text = Text(body: seq<string>, reply: seq<string>, rest: seq<string>)

  function Collect(lines: seq<string>, inReply: bool): (t: Text)
    ensures |t.rest| <= |lines|
  {
    if lines == [] then Text([], [], [])
    else if KindOf(lines[0]) == Rule then Text([], [], lines[1..])
    else if KindOf(lines[0]) == Quote then
      var t := Collect(lines[1..], true);
      t.(reply := [Unquote(lines[0])] + t.reply)
    else if !inReply then
      var t := Collect(lines[1..], false);
      t.(body := [lines[0]] + t.body)
    else if KindOf(lines[0]) == Empty then
      var t := Collect(lines[1..], true);
      t.(reply := [""] + t.reply)
    else Text([], [], lines)
  }

  function CityOf(lines: seq<string>): Option<string> {
    if lines != [] then CityIn(lines[0]) else None
  }

  /** The lines after a metadata line, if there is one. */
  function AfterCity(lines: seq<string>): (rest: seq<string>)
    ensures |rest| <= |lines|
  {
    if CityOf(lines).Some? then lines[1..] else lines
  }

  /** The text under a heading; `lines` are the lines that follow the heading. */
  function TextUnder(lines: seq<string>): (t: Text)
    ensures |t.rest| <= |lines|
  {
    Collect(AfterCity(SkipBlanks(lines)), false)
  }

  function ReviewUnder(name: string, rating: nat, lines: seq<string>): Review {
    var t := TextUnder(lines);
    Review(name, CityOf(SkipBlanks(lines)), rating, Collapsed(t.body), ReplyOf(t.reply))
  }

  function Reviews(lines: seq<string>): seq<Review>
    decreases |lines|
  {
    if lines == [] then []
    else if HeaderOf(lines[0]).None? then Reviews(lines[1..])
    else
      [ReviewUnder(HeaderOf(lines[0]).value.0, HeaderOf(lines[0]).value.1, lines[1..])]
      + Reviews(TextUnder(lines[1..]).rest)
  }

  // ----- the scanner

  datatype Mode = BodyMode | ReplyMode

  /** What has been read, followed by what is still to be read. */
  function Followed(body: seq<string>, reply: seq<string>, t: Text): Text {
    Text(body + t.body, reply + t.reply, t.rest)
  }

  lemma {:induction false} ReadOneMore(lines: seq<string>, i: nat, inReply: bool, body: seq<string>, reply: seq<string>)
    requires i < |lines|
    ensures var t := Followed(body, reply, Collect(lines[i..], inReply));
      var line, more := lines[i], lines[i + 1..];
      if IsRule(line) then t == Text(body, reply, more)
      else if IsQuote(line) then t == Followed(body, reply + [Unquote(line)], Collect(more, true))
      else if !inReply then t == Followed(body + [line], reply, Collect(more, false))
      else if IsBlank(line) then t == Followed(body, reply + [""], Collect(more, true))
      else t == Text(body, reply, lines[i..])
  {
    var quoted := [Unquote(lines[i])];
    assert lines[i..][1..] == lines[i + 1..];
    var more, plain := Collect(lines[i + 1..], true), Collect(lines[i + 1..], false);
    assert body + [] == body && reply + [] == reply;
    assert reply + (quoted + more.reply) == (reply + quoted) + more.reply;
    assert reply + ([""] + more.reply) == (reply + [""]) + more.reply;
    assert body + ([lines[i]] + plain.body) == (body + [lines[i]]) + plain.body;
  }

  /** With `body` and `reply` read so far, what follows from line `i` on makes up `goal`. */
  ghost predicate Reading(lines: seq<string>, i: nat, mode: Mode, body: seq<string>, reply: seq<string>, goal: Text)
    requires i <= |lines|
  {
    Followed(body, reply, Collect(lines[i..], mode == ReplyMode)) == goal
  }

  lemma {:induction false} ReadFromStart(lines: seq<string>, start: nat)
    requires start <= |lines|
    ensures Reading(lines, start, BodyMode, [], [], Collect(lines[start..], false))
  {
  }

  lemma {:induction false} ReadToEnd(lines: seq<string>, mode: Mode, body: seq<string>, reply: seq<string>, goal: Text)
    requires Reading(lines, |lines|, mode, body, reply, goal)
    ensures goal == Text(body, reply, lines[|lines|..])
  {
  }

  lemma {:induction false} ReadLine(lines: seq<string>, i: nat, mode: Mode,
        body: seq<string>, reply: seq<string>, goal: Text)
    requires i < |lines| && Reading(lines, i, mode, body, reply, goal)
    ensures var line := lines[i];
      if IsRule(line) then goal == Text(body, reply, lines[i + 1..])
      else if IsQuote(line) then Reading(lines, i + 1, ReplyMode, body, reply + [Unquote(line)], goal)
      else if mode == BodyMode then Reading(lines, i + 1, mode, body + [line], reply, goal)
      else if IsBlank(line) then Reading(lines, i + 1, mode, body, reply + [""], goal)
      else goal == Text(body, reply, lines[i..])
  {
    ReadOneMore(lines, i, mode == ReplyMode, body, reply);
  }

  /** Collects body and reply lines up to the end of the entry. */
  method ReadText(lines: seq<string>, start: nat) returns (i: nat, body: seq<string>, reply: seq<string>)
    requires start <= |lines|
    ensures start <= i <= |lines|
    ensures Text(body, reply, lines[i..]) == Collect(lines[start..], false)
  {
    i, body, reply := start, [], [];
    var mode := BodyMode;
    ghost var goal := Collect(lines[start..], false);
    ReadFromStart(lines, start);
    while i < |lines|
      invariant start <= i <= |lines|
      invariant Reading(lines, i, mode, body, reply, goal)
      decreases |lines| - i
    {
      ReadLine(lines, i, mode, body, reply, goal);
      if IsRule(lines[i]) {
        i := i + 1;
        return;
      }
      if IsQuote(lines[i]) {
        mode := ReplyMode;
        reply := reply + [Unquote(lines[i])];
      } else if mode == BodyMode {
        body := body + [lines[i]];
      } else if IsBlank(lines[i]) {
        reply := reply + [""];
      } else {
        return;
      }
      i := i + 1;
    }
    ReadToEnd(lines, mode, body, reply, goal);
  }

  lemma {:induction false} BlankIsEmpty(line: string)
    ensures IsBlank(line) <==> KindOf(line) == Empty
  {
  }

  /** Passes over blank lines. */
  method PassBlanks(lines: seq<string>, start: nat) returns (i: nat)
    requires start <= |lines|
    ensures start <= i <= |lines| && lines[i..] == SkipBlanks(lines[start..])
  {
    i := start;
    while i < |lines| && IsBlank(lines[i])
      invariant start <= i <= |lines|
      invariant SkipBlanks(lines[i..]) == SkipBlanks(lines[start..])
    {
      BlankIsEmpty(lines[i]);
      assert lines[i..][1..] == lines[i + 1..];
      i := i + 1;
    }
    assert SkipBlanks(lines[i..]) == lines[i..];
  }

  /** Takes the metadata line, if there is one. */
  method ReadCity(lines: seq<string>, start: nat) returns (city: Option<string>, i: nat)
    requires start <= |lines|
    ensures city == CityOf(lines[start..])
    ensures start <= i <= |lines| && lines[i..] == AfterCity(lines[start..])
  {
    i := start;
    city := if i < |lines| then CityIn(lines[i]) else None;
    if city.Some? {
      assert lines[i..][1..] == lines[i + 1..];
      i := i + 1;
    }
  }

  /** Reads the entry whose heading is line `start`. */
  method ReadReview(lines: seq<string>, start: nat) returns (review: Review, i: nat)
    requires start < |lines| && HeaderOf(lines[start]).Some?
    ensures review == ReviewUnder(HeaderOf(lines[start]).value.0, HeaderOf(lines[start]).value.1, lines[start + 1..])
    ensures start < i <= |lines| && lines[i..] == TextUnder(lines[start + 1..]).rest
  {
    i := PassBlanks(lines, start + 1);
    var city;
    city, i := ReadCity(lines, i);
    var body, reply: seq<string>;
    i, body, reply := ReadText(lines, i);
    var bodyText := Collapse(body);
    var replyText := Collapse(reply);
    replyText := Unlabel(replyText);
    review := Review(HeaderOf(lines[start]).value.0, city, HeaderOf(lines[start]).value.1, bodyText,
                     if replyText == "" then None else Some(replyText));
  }

  /** With `reviews` read so far, what follows from line `i` on makes up `goal`. */
  ghost predicate Scanning(lines: seq<string>, i: nat, reviews: seq<Review>, goal: seq<Review>)
    requires i <= |lines|
  {
    reviews + Reviews(lines[i..]) == goal
  }

  lemma {:induction false} ScanFromStart(lines: seq<string>)
    ensures Scanning(lines, 0, [], Reviews(lines))
  {
    assert lines[0..] == lines;
  }

  lemma {:induction false} ScanOther(lines: seq<string>, i: nat, reviews: seq<Review>, goal: seq<Review>)
    requires i < |lines| && HeaderOf(lines[i]).None?
    requires Scanning(lines, i, reviews, goal)
    ensures Scanning(lines, i + 1, reviews, goal)
  {
    assert lines[i..][1..] == lines[i + 1..];
  }

  lemma {:induction false} OneMoreAtEnd<T>(s: seq<T>, x: T, t: seq<T>)
    ensures s + ([x] + t) == (s + [x]) + t
  {
  }

  lemma {:induction false} HeadingStartsReview(lines: seq<string>)
    requires lines != [] && HeaderOf(lines[0]).Some?
    ensures Reviews(lines)
         == [ReviewUnder(HeaderOf(lines[0]).value.0, HeaderOf(lines[0]).value.1, lines[1..])]
            + Reviews(TextUnder(lines[1..]).rest)
  {
  }

  lemma {:induction false} ScanReview(lines: seq<string>, i: nat, next: nat, reviews: seq<Review>, goal: seq<Review>)
    requires i < next <= |lines| && HeaderOf(lines[i]).Some?
    requires Scanning(lines, i, reviews, goal)
    requires lines[next..] == TextUnder(lines[i + 1..]).rest
    ensures var review := ReviewUnder(HeaderOf(lines[i]).value.0, HeaderOf(lines[i]).value.1, lines[i + 1..]);
      Scanning(lines, next, reviews + [review], goal)
  {
    var more := lines[i..];
    assert more[0] == lines[i] && more[1..] == lines[i + 1..];
    HeadingStartsReview(more);
    OneMoreAtEnd(reviews, ReviewUnder(HeaderOf(lines[i]).value.0, HeaderOf(lines[i]).value.1, lines[i + 1..]),
                 Reviews(lines[next..]));
  }

  method Parse(lines: seq<string>) returns (reviews: seq<Review>)
    ensures reviews == Reviews(lines)
  {
    reviews := [];
    var i := 0;
    ghost var goal := Reviews(lines);
    ScanFromStart(lines);
    while i < |lines|
      invariant i <= |lines|
      invariant Scanning(lines, i, reviews, goal)
      decreases |lines| - i
    {
      if HeaderOf(lines[i]).None? {
        ScanOther(lines, i, reviews, goal);
        i := i + 1;
      } else {
        var review, next := ReadReview(lines, i);
        ScanReview(lines, i, next, reviews, goal);
        reviews := reviews + [review];
        i := next;
      }
    }
    assert reviews + [] == reviews;
  }

  // ----- entries as they are laid out

  /**
   The lines of one entry: heading, blank lines, metadata, body, reply block, rule, and whatever
   follows up to the next heading.
   */
  datatype Block = Block(
    heading: string, before: seq<string>, metadata: Option<string>, body: seq<string>, reply: seq<string>,
    rule: Option<string>, after: seq<string>)

  predicate BodyLine(line: string) {
    KindOf(line) == Empty || KindOf(line) == Other
  }

  predicate ReplyLine(line: string) {
    KindOf(line) == Quote || KindOf(line) == Empty
  }

  predicate BodyLines(lines: seq<string>) {
    forall k | 0 <= k < |lines| :: BodyLine(lines[k])
  }

  /** Quotes and blank lines, the first a quote. */
  predicate ReplyLines(lines: seq<string>) {
    && (forall k | 0 <= k < |lines| :: ReplyLine(lines[k]))
    && (lines != [] ==> KindOf(lines[0]) == Quote)
  }

  predicate BlankLines(lines: seq<string>) {
    forall k | 0 <= k < |lines| :: KindOf(lines[k]) == Empty
  }

  predicate NoHeadings(lines: seq<string>) {
    forall k | 0 <= k < |lines| :: HeaderOf(lines[k]).None?
  }

  predicate EndMark(rule: Option<string>) {
    rule.Some? ==> KindOf(rule.value) == Rule
  }

  predicate WellFormed(b: Block) {
    && HeaderOf(b.heading).Some?
    && BlankLines(b.before)
    && (b.metadata.Some? ==> CityIn(b.metadata.value).Some?)
    && BodyLines(b.body) && ReplyLines(b.reply)
    && EndMark(b.rule)
    && NoHeadings(b.after)
    // without a metadata line the body may not look like one, nor start with a blank line
    && (b.metadata.None? ==> b.body != [] && KindOf(b.body[0]) == Other && CityIn(b.body[0]).None?)
    // an entry without a rule ends at the heading that follows its reply, or at the end of the file
    && (b.rule.None? ==> b.after == [])
  }

  function Just(line: Option<string>): seq<string> {
    if line.Some? then [line.value] else []
  }

  function Content(b: Block): seq<string> {
    b.body + b.reply + Just(b.rule)
  }

  function BlockLines(b: Block): seq<string> {
    [b.heading] + b.before + Just(b.metadata) + Content(b) + b.after
  }

  function FileLines(blocks: seq<Block>): seq<string> {
    if blocks == [] then [] else BlockLines(blocks[0]) + FileLines(blocks[1..])
  }

  /** Only after a reply, or at the end of the file, may the rule be missing. */
  predicate Separated(blocks: seq<Block>) {
    forall k | 0 <= k < |blocks| - 1 :: blocks[k].rule.Some? || blocks[k].reply != []
  }

  function ReplyText(line: string): string {
    if KindOf(line) == Quote then Unquote(line) else ""
  }

  function ReplyTexts(lines: seq<string>): seq<string> {
    seq(|lines|, k requires 0 <= k < |lines| => ReplyText(lines[k]))
  }

  function ReviewOf(b: Block): Review
    requires WellFormed(b)
  {
    Review(HeaderOf(b.heading).value.0, if b.metadata.Some? then CityIn(b.metadata.value) else None,
           HeaderOf(b.heading).value.1, Collapsed(b.body), ReplyOf(ReplyTexts(b.reply)))
  }

  function ReviewsOf(blocks: seq<Block>): seq<Review>
    requires forall k | 0 <= k < |blocks| :: WellFormed(blocks[k])
  {
    if blocks == [] then [] else [ReviewOf(blocks[0])] + ReviewsOf(blocks[1..])
  }

  // ----- reading a laid-out entry

  /** Where the text of an entry without a rule ends. */
  ghost predicate EndsAt(rest: seq<string>, inReply: bool) {
    rest == [] || (inReply && KindOf(rest[0]) == Other)
  }

  lemma {:induction false} CollectEnd(rule: Option<string>, rest: seq<string>, inReply: bool)
    requires EndMark(rule) && (rule.None? ==> EndsAt(rest, inReply))
    ensures Collect(Just(rule) + rest, inReply) == Text([], [], rest)
  {
    if rule.Some? {
      assert (Just(rule) + rest)[1..] == rest;
    } else {
      assert Just(rule) + rest == rest;
    }
  }

  lemma {:induction false} FirstAndRest<T>(s: seq<T>, t: seq<T>)
    requires s != []
    ensures s + t == [s[0]] + (s[1..] + t)
  {
  }

  lemma {:induction false} CollectReplyLine(line: string, rest: seq<string>)
    requires ReplyLine(line)
    ensures var t := Collect(rest, true);
      Collect([line] + rest, true) == t.(reply := [ReplyText(line)] + t.reply)
  {
    assert ([line] + rest)[1..] == rest;
  }

  lemma {:induction false} ReplyTextsStep(reply: seq<string>)
    requires reply != []
    ensures ReplyTexts(reply) == [ReplyText(reply[0])] + ReplyTexts(reply[1..])
  {
  }

  lemma {:induction false} CollectReplyLines(reply: seq<string>, rest: seq<string>)
    requires forall k | 0 <= k < |reply| :: ReplyLine(reply[k])
    ensures var t := Collect(rest, true);
      Collect(reply + rest, true) == t.(reply := ReplyTexts(reply) + t.reply)
  {
    var t := Collect(rest, true);
    if reply == [] {
      assert reply + rest == rest && ReplyTexts(reply) + t.reply == t.reply;
    } else {
      CollectReplyLines(reply[1..], rest);
      CollectReplyLine(reply[0], reply[1..] + rest);
      FirstAndRest(reply, rest);
      ReplyTextsStep(reply);
      FirstAndRest(ReplyTexts(reply), t.reply);
    }
  }

  lemma {:induction false} CollectReply(reply: seq<string>, rule: Option<string>, rest: seq<string>)
    requires forall k | 0 <= k < |reply| :: ReplyLine(reply[k])
    requires EndMark(rule) && (rule.None? ==> EndsAt(rest, true))
    ensures Collect(reply + (Just(rule) + rest), true) == Text([], ReplyTexts(reply), rest)
  {
    CollectEnd(rule, rest, true);
    CollectReplyLines(reply, Just(rule) + rest);
    assert ReplyTexts(reply) + [] == ReplyTexts(reply);
  }

  /** Read in body mode, a reply block starts with a quote, or there is none. */
  lemma {:induction false} CollectReplyBlock(reply: seq<string>, rule: Option<string>, rest: seq<string>)
    requires ReplyLines(reply)
    requires EndMark(rule) && (rule.None? ==> EndsAt(rest, reply != []))
    ensures Collect(reply + (Just(rule) + rest), false) == Text([], ReplyTexts(reply), rest)
  {
    if reply == [] {
      assert reply + (Just(rule) + rest) == Just(rule) + rest && ReplyTexts(reply) == [];
      CollectEnd(rule, rest, false);
    } else {
      CollectReply(reply, rule, rest);
    }
  }

  lemma {:induction false} CollectBodyLine(line: string, rest: seq<string>)
    requires BodyLine(line)
    ensures var t := Collect(rest, false);
      Collect([line] + rest, false) == t.(body := [line] + t.body)
  {
    assert ([line] + rest)[1..] == rest;
  }

  lemma {:induction false} CollectBody(body: seq<string>, rest: seq<string>)
    requires BodyLines(body)
    ensures var t := Collect(rest, false);
      Collect(body + rest, false) == t.(body := body + t.body)
  {
    var t := Collect(rest, false);
    if body == [] {
      assert body + rest == rest && body + t.body == t.body;
    } else {
      CollectBody(body[1..], rest);
      CollectBodyLine(body[0], body[1..] + rest);
      FirstAndRest(body, rest);
      FirstAndRest(body, t.body);
    }
  }

  lemma {:induction false} CollectContent(body: seq<string>, reply: seq<string>,
        rule: Option<string>, rest: seq<string>)
    requires BodyLines(body) && ReplyLines(reply)
    requires EndMark(rule) && (rule.None? ==> EndsAt(rest, reply != []))
    ensures Collect(body + (reply + (Just(rule) + rest)), false) == Text(body, ReplyTexts(reply), rest)
  {
    CollectReplyBlock(reply, rule, rest);
    CollectBody(body, reply + (Just(rule) + rest));
    assert body + [] == body;
  }

  lemma {:induction false} SkipsBlanks(gap: seq<string>, rest: seq<string>)
    requires BlankLines(gap)
    requires rest != [] ==> KindOf(rest[0]) != Empty
    ensures SkipBlanks(gap + rest) == rest
  {
    if gap == [] {
      assert gap + rest == rest;
    } else {
      assert (gap + rest)[1..] == gap[1..] + rest;
      SkipsBlanks(gap[1..], rest);
    }
  }

  lemma {:induction false} SkipsToHeading(other: seq<string>, rest: seq<string>)
    requires NoHeadings(other)
    ensures Reviews(other + rest) == Reviews(rest)
  {
    if other == [] {
      assert other + rest == rest;
    } else {
      assert (other + rest)[1..] == other[1..] + rest;
      SkipsToHeading(other[1..], rest);
    }
  }

  lemma {:induction false} HeadingIsOther(line: string)
    requires HeaderOf(line).Some?
    ensures KindOf(line) == Other
  {
    HeadingStart(line);
    StripKeepsStart(line);
  }

  lemma {:induction false} MetadataIsOther(line: string)
    requires CityIn(line).Some?
    ensures KindOf(line) == Other
  {
    MetadataStart(line);
    StripKeepsStart(line);
  }

  /** The scanner passes the blank lines under the heading and takes the metadata line, if there is one. */
  lemma {:induction false} CityIsRead(b: Block, rest: seq<string>)
    requires WellFormed(b)
    ensures var under := SkipBlanks(b.before + (Just(b.metadata) + (Content(b) + rest)));
      && CityOf(under) == (if b.metadata.Some? then CityIn(b.metadata.value) else None)
      && AfterCity(under) == Content(b) + rest
  {
    var under := Just(b.metadata) + (Content(b) + rest);
    if b.metadata.Some? {
      MetadataIsOther(b.metadata.value);
      assert under[1..] == Content(b) + rest;
    } else {
      assert under == Content(b) + rest;
      assert under[0] == b.body[0];
    }
    SkipsBlanks(b.before, under);
  }

  /** What stands under the heading of an entry, `tail` being what follows its content. */
  function Under(b: Block, tail: seq<string>): seq<string> {
    b.before + (Just(b.metadata) + (Content(b) + tail))
  }

  lemma {:induction false} ContentStarts(b: Block, rest: seq<string>)
    ensures Content(b) + rest == b.body + (b.reply + (Just(b.rule) + rest))
  {
  }

  lemma {:induction false} TextIsRead(b: Block, tail: seq<string>)
    requires WellFormed(b) && (b.rule.None? ==> EndsAt(tail, b.reply != []))
    ensures TextUnder(Under(b, tail)) == Text(b.body, ReplyTexts(b.reply), tail)
  {
    CityIsRead(b, tail);
    ContentStarts(b, tail);
    CollectContent(b.body, b.reply, b.rule, tail);
  }

  lemma {:induction false} HeadingIsRead(b: Block, tail: seq<string>)
    requires WellFormed(b) && (b.rule.None? ==> EndsAt(tail, b.reply != []))
    ensures Reviews([b.heading] + Under(b, tail)) == [ReviewOf(b)] + Reviews(tail)
  {
    assert ([b.heading] + Under(b, tail))[1..] == Under(b, tail);
    CityIsRead(b, tail);
    TextIsRead(b, tail);
  }

  lemma {:induction false} BlockStarts(b: Block, rest: seq<string>)
    ensures BlockLines(b) + rest == [b.heading] + Under(b, b.after + rest)
  {
    var front, content := [b.heading] + b.before + Just(b.metadata), Content(b);
    assert front + content + b.after + rest == front + (content + (b.after + rest));
    assert front + (content + (b.after + rest)) == [b.heading] + Under(b, b.after + rest);
  }

  /** An entry as it is laid out is read as itself, whatever follows. */
  lemma {:induction false} BlockIsRead(b: Block, rest: seq<string>)
    requires WellFormed(b) && (b.rule.None? ==> EndsAt(rest, b.reply != []))
    ensures Reviews(BlockLines(b) + rest) == [ReviewOf(b)] + Reviews(rest)
  {
    var tail := b.after + rest;
    BlockStarts(b, rest);
    assert b.rule.None? ==> tail == rest;
    HeadingIsRead(b, tail);
    SkipsToHeading(b.after, rest);
  }

  /** An entry without a rule is followed by a heading or by nothing. */
  lemma {:induction false} NextEnds(blocks: seq<Block>)
    requires blocks != [] && Separated(blocks) && blocks[0].rule.None?
    requires forall k | 0 <= k < |blocks| :: WellFormed(blocks[k])
    ensures EndsAt(FileLines(blocks[1..]), blocks[0].reply != [])
  {
    if |blocks| > 1 {
      assert WellFormed(blocks[1]);
      HeadingIsOther(blocks[1].heading);
      assert FileLines(blocks[1..])[0] == blocks[1].heading;
    }
  }

  lemma {:induction false} FirstBlockIsRead(blocks: seq<Block>)
    requires blocks != [] && Separated(blocks)
    requires forall k | 0 <= k < |blocks| :: WellFormed(blocks[k])
    ensures Reviews(FileLines(blocks)) == [ReviewOf(blocks[0])] + Reviews(FileLines(blocks[1..]))
  {
    if blocks[0].rule.None? {
      NextEnds(blocks);
    }
    BlockIsRead(blocks[0], FileLines(blocks[1..]));
  }

  /** A file of well-formed entries is read as exactly those entries, in order. */
  lemma {:induction false} BlocksAreRead(blocks: seq<Block>)
    requires Separated(blocks)
    requires forall k | 0 <= k < |blocks| :: WellFormed(blocks[k])
    ensures Reviews(FileLines(blocks)) == ReviewsOf(blocks)
  {
    if blocks != [] {
      FirstBlockIsRead(blocks);
      BlocksAreRead(blocks[1..]);
    }
  }

  /** The same, after any lines that are no headings. */
  lemma {:induction false} FileIsRead(preamble: seq<string>, blocks: seq<Block>)
    requires NoHeadings(preamble)
    requires Separated(blocks)
    requires forall k | 0 <= k < |blocks| :: WellFormed(blocks[k])
    ensures Reviews(preamble + FileLines(blocks)) == ReviewsOf(blocks)
  {
    SkipsToHeading(preamble, FileLines(blocks));
    BlocksAreRead(blocks);
  }

  // ----- the documented shape

  /** An entry as its author thinks of it. `number` is written as it is, `rating` as stars out of `rating + missing`. */
  datatype Entry = Entry(
    number: string, name: string, rating: nat, missing: nat, city: string, date: string,
    body: seq<seq<string>>, reply: seq<seq<string>>)

  predicate NoneBlank(texts: seq<string>) {
    forall i | 0 <= i < |texts| :: !Blank(texts[i])
  }

  /** Paragraphs of lines that are not blank; a line may be indented. */
  predicate Prose(paragraphs: seq<seq<string>>) {
    forall k | 0 <= k < |paragraphs| :: paragraphs[k] != [] && NoneBlank(paragraphs[k])
  }

  /** The line does not begin a quote and is no rule. */
  predicate Unmarked(text: string) {
    !IsQuote(text) && !IsRule(text)
  }

  predicate AllUnmarked(texts: seq<string>) {
    forall i | 0 <= i < |texts| :: Unmarked(texts[i])
  }

  predicate NoMarks(paragraphs: seq<seq<string>>) {
    forall k | 0 <= k < |paragraphs| :: AllUnmarked(paragraphs[k])
  }

  /** The first line is not indented, as the label stands before it. */
  predicate StartsAtOnce(paragraphs: seq<seq<string>>) {
    paragraphs != [] && paragraphs[0] != [] && paragraphs[0][0] != "" ==> !IsSpace(paragraphs[0][0][0])
  }

  predicate SplitsCity(city: string, i: nat)
    requires i + 1 < |city|
  {
    IsSpace(city[i]) && city[i + 1] == DOT && (i + 2 < |city| ==> IsSpace(city[i + 2]))
  }

  /** The city has no dot between spaces of its own. */
  predicate NoDot(city: string) {
    forall i | 1 <= i < |city| - 1 :: !SplitsCity(city, i)
  }

  predicate Documented(e: Entry) {
    && e.number != "" && All(e.number, IsDigit) && Trim(e.name) && e.rating >= 1
    && Trim(e.city) && NoDot(e.city) && e.date != ""
    && Prose(e.body) && NoMarks(e.body) && Prose(e.reply) && StartsAtOnce(e.reply)
  }

  function Repeat(c: char, n: nat): (s: string)
    ensures |s| == n && forall i | 0 <= i < n :: s[i] == c
  {
    seq(n, _ => c)
  }

  function HeadingLine(e: Entry): string {
    "## " + e.number + ". " + e.name + " " + [DASH] + " " + Repeat('\U{2605}', e.rating) + Repeat('\U{2606}', e.missing)
  }

  function MetadataLine(e: Entry): string {
    "*" + e.city + " " + [DOT] + " " + e.date + "*"
  }

  function Quoted(text: string): string {
    if text == "" then ">" else "> " + text
  }

  function QuotedAll(texts: seq<string>): seq<string> {
    if texts == [] then [] else [Quoted(texts[0])] + QuotedAll(texts[1..])
  }

  /** A blank line after every paragraph. */
  function SpacedOut(paragraphs: seq<seq<string>>): seq<Laid> {
    if paragraphs == [] then [] else [Laid(paragraphs[0], [""])] + SpacedOut(paragraphs[1..])
  }

  function Labelled(reply: seq<seq<string>>): seq<seq<string>> {
    if reply == [] || reply[0] == [] then reply
    else [[REPLY_LABEL + " " + reply[0][0]] + reply[0][1..]] + reply[1..]
  }

  /** The reply with its label, quoted, an empty quote between paragraphs and a blank line at the end. */
  function ReplyBlock(reply: seq<seq<string>>): seq<string> {
    var texts := Lay(SpacedOut(Labelled(reply)));
    if texts == [] then [] else QuotedAll(texts[..|texts| - 1]) + [""]
  }

  /** Heading, metadata, blank, body, blank, quoted reply with its label, blank, rule, blank. */
  function Written(e: Entry): Block {
    Block(HeadingLine(e), [], Some(MetadataLine(e)), [""] + Lay(SpacedOut(e.body)), ReplyBlock(e.reply),
          Some("---"), [""])
  }

  function WriteAll(entries: seq<Entry>): seq<Block> {
    if entries == [] then [] else [Written(entries[0])] + WriteAll(entries[1..])
  }

  function AsText(paragraphs: seq<seq<string>>): string {
    Join(JoinEach(paragraphs), "\n\n")
  }

  function Stripped(paragraphs: seq<seq<string>>): seq<seq<string>> {
    if paragraphs == [] then [] else [StripAll(paragraphs[0])] + Stripped(paragraphs[1..])
  }

  /** The lines of each paragraph on one line, without their indentation. */
  function Published(e: Entry): Review {
    Review(e.name, Some(e.city), e.rating, AsText(Stripped(e.body)),
           if e.reply == [] then None else Some(AsText(Stripped(e.reply))))
  }

  function PublishAll(entries: seq<Entry>): seq<Review> {
    if entries == [] then [] else [Published(entries[0])] + PublishAll(entries[1..])
  }

  lemma {:induction false} SpacedOutIsWellLaid(paragraphs: seq<seq<string>>)
    requires Prose(paragraphs)
    ensures AllWellLaid(SpacedOut(paragraphs))
    ensures StripParagraphs(SpacedOut(paragraphs)) == Stripped(paragraphs)
  {
    if paragraphs != [] {
      assert NoneBlank(paragraphs[0]);
      SpacedOutIsWellLaid(paragraphs[1..]);
    }
  }

  lemma {:induction false} ProseCollapses(lead: seq<string>, paragraphs: seq<seq<string>>)
    requires Prose(paragraphs)
    requires forall i | 0 <= i < |lead| :: Blank(lead[i])
    ensures Collapsed(lead + Lay(SpacedOut(paragraphs))) == AsText(Stripped(paragraphs))
  {
    SpacedOutIsWellLaid(paragraphs);
    CollapseReadsLaidParagraphs(lead, SpacedOut(paragraphs));
  }

  lemma {:induction false} HeadingPieces(n: string, name: string, stars: string, hollow: string)
    ensures "##" + (" " + (n + ("." + ((" " + name + " ") + [DASH] + (" " + (stars + hollow))))))
         == "## " + n + ". " + name + " " + [DASH] + " " + stars + hollow
  {
    var title, rating := " " + name + " ", " " + (stars + hollow);
    assert "##" + (" " + (n + ("." + (title + [DASH] + rating)))) == "## " + n + "." + title + [DASH] + rating;
    assert "." + title == ". " + name + " ";
    assert "## " + n + "." + title == "## " + n + ". " + name + " ";
  }

  lemma {:induction false} HeadingLineIsRead(e: Entry)
    requires Documented(e)
    ensures HeaderOf(HeadingLine(e)) == Some((e.name, e.rating))
  {
    var stars, hollow := Repeat('\U{2605}', e.rating), Repeat('\U{2606}', e.missing);
    var p := HeaderParts(" ", e.number, " ", e.name, " ", " ", stars, hollow, "");
    assert hollow + "" == hollow;
    HeadingPieces(e.number, e.name, stars, hollow);
    assert p.Text() == HeadingLine(e);
    TrimIsStripped(e.name);
    HeaderIsRead(p);
  }

  lemma {:induction false} MetadataLineIsRead(e: Entry)
    requires Documented(e)
    ensures CityIn(MetadataLine(e)) == Some(e.city)
  {
    var p := MetaParts(e.city, ' ', ' ', e.date, "");
    var inner := p.Inner();
    assert p.Text() == MetadataLine(e);
    InnerIsForced(inner, "");
    assert DotAt(inner, |e.city|);
    forall i: nat | i < |e.city| ensures !DotAt(inner, i) {
      assert 1 <= i < |e.city| - 1 ==> !SplitsCity(e.city, i);
      assert inner[i] == e.city[i];
      assert i + 1 < |e.city| ==> inner[i + 1] == e.city[i + 1];
      assert i + 2 < |e.city| ==> inner[i + 2] == e.city[i + 2];
    }
    assert inner[..|e.city|] == e.city;
    TrimIsStripped(e.city);
  }

  predicate EmptyOrText(text: string) {
    text == "" || !Blank(text)
  }

  predicate EmptyOrBody(text: string) {
    text == "" || (!Blank(text) && Unmarked(text))
  }

  lemma {:induction false} QuoteIsRead(text: string)
    requires EmptyOrText(text)
    ensures KindOf(Quoted(text)) == Quote && Unquote(Quoted(text)) == text
  {
    StripKeepsStart(Quoted(text));
  }

  lemma {:induction false} QuotedTexts(texts: seq<string>)
    requires forall k | 0 <= k < |texts| :: EmptyOrText(texts[k])
    ensures ReplyTexts(QuotedAll(texts)) == texts
    ensures forall k | 0 <= k < |QuotedAll(texts)| :: KindOf(QuotedAll(texts)[k]) == Quote
    ensures |QuotedAll(texts)| == |texts|
  {
    if texts != [] {
      QuotedTexts(texts[1..]);
      QuoteIsRead(texts[0]);
      var all := QuotedAll(texts);
      assert all[0] == Quoted(texts[0]) && all[1..] == QuotedAll(texts[1..]);
      ReplyTextsStep(all);
    }
  }

  lemma {:induction false} AreBodyLines(texts: seq<string>)
    requires forall k | 0 <= k < |texts| :: EmptyOrBody(texts[k])
    ensures BodyLines(texts)
  {
    forall k | 0 <= k < |texts| ensures BodyLine(texts[k]) {
      assert EmptyOrBody(texts[k]);
    }
  }

  lemma {:induction false} SpacedOutStep(paragraphs: seq<seq<string>>)
    requires paragraphs != []
    ensures Lay(SpacedOut(paragraphs)) == paragraphs[0] + [""] + Lay(SpacedOut(paragraphs[1..]))
  {
    var laid := SpacedOut(paragraphs);
    assert laid[1..] == SpacedOut(paragraphs[1..]);
  }

  lemma {:induction false} SpacedOutTexts(paragraphs: seq<seq<string>>)
    requires Prose(paragraphs)
    ensures forall k | 0 <= k < |Lay(SpacedOut(paragraphs))| :: EmptyOrText(Lay(SpacedOut(paragraphs))[k])
  {
    if paragraphs != [] {
      SpacedOutTexts(paragraphs[1..]);
      SpacedOutStep(paragraphs);
      assert NoneBlank(paragraphs[0]);
    }
  }

  lemma {:induction false} SpacedOutBody(paragraphs: seq<seq<string>>)
    requires Prose(paragraphs) && NoMarks(paragraphs)
    ensures forall k | 0 <= k < |Lay(SpacedOut(paragraphs))| :: EmptyOrBody(Lay(SpacedOut(paragraphs))[k])
  {
    if paragraphs != [] {
      SpacedOutBody(paragraphs[1..]);
      SpacedOutStep(paragraphs);
      assert NoneBlank(paragraphs[0]) && AllUnmarked(paragraphs[0]);
    }
  }

  // ----- the label of the reply

  lemma {:induction false} JoinPrefix(a: string, x: string, rest: seq<string>, separator: string)
    ensures Join([a + x] + rest, separator) == a + Join([x] + rest, separator)
  {
    if rest != [] {
      assert ([a + x] + rest)[1..] == rest && ([x] + rest)[1..] == rest;
    }
  }

  lemma {:induction false} JoinStart(x: string, rest: seq<string>, separator: string)
    requires x != ""
    ensures Join([x] + rest, separator) != "" && Join([x] + rest, separator)[0] == x[0]
  {
    if rest != [] {
      assert ([x] + rest)[1..] == rest;
    }
  }

  predicate AllTrim(texts: seq<string>) {
    texts != [] && forall i | 0 <= i < |texts| :: Trim(texts[i])
  }

  lemma {:induction false} StrippedIsAllTrim(texts: seq<string>)
    requires texts != [] && NoneBlank(texts)
    ensures AllTrim(StripAll(texts))
  {
    forall i | 0 <= i < |texts| ensures Trim(Strip(texts[i])) {
      StrippedIsTrim(texts[i]);
    }
  }

  lemma {:induction false} LabelledText(reply: seq<seq<string>>)
    requires reply != [] && AllTrim(reply[0])
    ensures AsText(Labelled(reply)) == REPLY_LABEL + " " + AsText(reply)
    ensures AsText(reply) != "" && !IsSpace(AsText(reply)[0])
  {
    var first, more := reply[0][0], reply[0][1..];
    var prefix := REPLY_LABEL + " ";
    var texts := JoinEach(reply[1..]);
    assert reply[0] == [first] + more;
    assert reply == [reply[0]] + reply[1..];
    JoinPrefix(prefix, first, more, " ");
    JoinPrefix(prefix, Join(reply[0], " "), texts, "\n\n");
    JoinStart(first, more, " ");
    JoinStart(Join(reply[0], " "), texts, "\n\n");
  }

  lemma {:induction false} StripRightOfSum(s: string, t: string)
    ensures StripRight(s + t) == if All(t, IsSpace) then StripRight(s) else s + StripRight(t)
  {
    if t == "" {
      assert s + t == s;
    } else if IsSpace(t[|t| - 1]) {
      var init := t[..|t| - 1];
      assert (s + t)[..|s + t| - 1] == s + init;
      StripRightOfSum(s, init);
      assert All(t, IsSpace) <==> All(init, IsSpace) by {
        assert t == init + [t[|t| - 1]];
      }
    } else {
      assert !All(t, IsSpace);
    }
  }

  /** Before a text that is not indented, a prefix that is not indented stays as it is. */
  lemma {:induction false} StripAfterPrefix(prefix: string, text: string)
    requires prefix != "" && !IsSpace(prefix[0]) && text != "" && !IsSpace(text[0])
    ensures Strip(prefix + text) == prefix + Strip(text) && !Blank(prefix + text)
  {
    StripRightOfSum(prefix, text);
    assert StripLeft(prefix + text) == prefix + text;
  }

  lemma {:induction false} LabelledIsProse(reply: seq<seq<string>>)
    requires Prose(reply) && StartsAtOnce(reply)
    ensures Prose(Labelled(reply)) && Stripped(Labelled(reply)) == Labelled(Stripped(reply))
  {
    if reply != [] {
      var prefix, labelled := REPLY_LABEL + " ", Labelled(reply);
      assert NoneBlank(reply[0]);
      assert reply[0][0] != "" by {
        assert !Blank(reply[0][0]);
      }
      StripAfterPrefix(prefix, reply[0][0]);
      assert NoneBlank(labelled[0]);
      assert labelled[1..] == reply[1..];
      assert StripAll(labelled[0]) == [prefix + Strip(reply[0][0])] + StripAll(reply[0])[1..];
    }
  }

  /** The label and the space after it come off again. */
  lemma {:induction false} LabelComesOff(text: string)
    requires text != "" && !IsSpace(text[0])
    ensures Unlabel(REPLY_LABEL + " " + text) == text
  {
    var whole := REPLY_LABEL + " " + text;
    assert REPLY_LABEL <= whole;
    assert whole[|REPLY_LABEL|..] == " " + text;
    assert (" " + text)[1..] == text;
    assert StripLeft(" " + text) == StripLeft(text) == text;
  }

  lemma {:induction false} ReplyIsPublished(reply: seq<seq<string>>)
    requires Prose(reply) && StartsAtOnce(reply)
    ensures ReplyOf(Lay(SpacedOut(Labelled(reply)))) == if reply == [] then None else Some(AsText(Stripped(reply)))
  {
    LabelledIsProse(reply);
    ProseCollapses([], Labelled(reply));
    assert [] + Lay(SpacedOut(Labelled(reply))) == Lay(SpacedOut(Labelled(reply)));
    if reply != [] {
      StrippedIsAllTrim(reply[0]);
      LabelledText(Stripped(reply));
      LabelComesOff(AsText(Stripped(reply)));
    }
  }

  lemma {:induction false} BodyIsPublished(body: seq<seq<string>>)
    requires Prose(body) && NoMarks(body)
    ensures var lines := [""] + Lay(SpacedOut(body));
      Collapsed(lines) == AsText(Stripped(body)) && BodyLines(lines)
  {
    SpacedOutBody(body);
    AreBodyLines([""] + Lay(SpacedOut(body)));
    ProseCollapses([""], body);
  }

  lemma {:induction false} SpacedOutEnd(paragraphs: seq<seq<string>>)
    requires paragraphs != []
    ensures var texts := Lay(SpacedOut(paragraphs));
      texts != [] && texts[|texts| - 1] == ""
  {
    SpacedOutStep(paragraphs);
    if |paragraphs| > 1 {
      SpacedOutEnd(paragraphs[1..]);
    }
  }

  /** Quoted lines and a blank line are read as their texts and an empty one. */
  lemma {:induction false} QuotesAndBlank(texts: seq<string>)
    requires texts != [] && forall k | 0 <= k < |texts| :: EmptyOrText(texts[k])
    ensures ReplyTexts(QuotedAll(texts) + [""]) == texts + [""] && ReplyLines(QuotedAll(texts) + [""])
  {
    QuotedTexts(texts);
    assert ReplyTexts(QuotedAll(texts) + [""]) == ReplyTexts(QuotedAll(texts)) + [ReplyText("")];
  }

  lemma {:induction false} ReplyBlockTexts(reply: seq<seq<string>>)
    requires Prose(reply) && StartsAtOnce(reply)
    ensures ReplyTexts(ReplyBlock(reply)) == Lay(SpacedOut(Labelled(reply))) && ReplyLines(ReplyBlock(reply))
  {
    if reply != [] {
      var texts := Lay(SpacedOut(Labelled(reply)));
      LabelledIsProse(reply);
      SpacedOutTexts(Labelled(reply));
      SpacedOutEnd(Labelled(reply));
      SpacedOutStep(Labelled(reply));
      assert texts == texts[..|texts| - 1] + [""];
      QuotesAndBlank(texts[..|texts| - 1]);
    }
  }

  lemma {:induction false} QuotedReply(reply: seq<seq<string>>)
    requires Prose(reply) && StartsAtOnce(reply)
    ensures ReplyOf(ReplyTexts(ReplyBlock(reply))) == if reply == [] then None else Some(AsText(Stripped(reply)))
    ensures ReplyLines(ReplyBlock(reply))
  {
    ReplyBlockTexts(reply);
    ReplyIsPublished(reply);
  }

  lemma {:induction false} NoHeading(line: string)
    requires line == "" || line[0] != '#'
    ensures NoHeadings([line])
  {
  }

  lemma {:induction false} RuleIsRule()
    ensures EndMark(Some("---"))
  {
    TrimIsStripped("---");
  }

  lemma {:induction false} EndsWithRule(heading: string, metadata: string, body: seq<string>, reply: seq<string>)
    requires HeaderOf(heading).Some? && CityIn(metadata).Some? && BodyLines(body) && ReplyLines(reply)
    ensures WellFormed(Block(heading, [], Some(metadata), body, reply, Some("---"), [""]))
  {
    RuleIsRule();
    NoHeading("");
  }

  lemma {:induction false} WrittenIsWellFormed(e: Entry)
    requires Documented(e)
    ensures WellFormed(Written(e))
  {
    HeadingLineIsRead(e);
    MetadataLineIsRead(e);
    BodyIsPublished(e.body);
    QuotedReply(e.reply);
    EndsWithRule(HeadingLine(e), MetadataLine(e), [""] + Lay(SpacedOut(e.body)), ReplyBlock(e.reply));
  }

  lemma {:induction false} WrittenIsPublished(e: Entry)
    requires Documented(e) && WellFormed(Written(e))
    ensures ReviewOf(Written(e)) == Published(e)
  {
    HeadingLineIsRead(e);
    MetadataLineIsRead(e);
    BodyIsPublished(e.body);
    QuotedReply(e.reply);
  }

  lemma {:induction false} WrittenIsRead(e: Entry, rest: seq<string>)
    requires Documented(e)
    ensures Reviews(BlockLines(Written(e)) + rest) == [Published(e)] + Reviews(rest)
  {
    WrittenIsWellFormed(e);
    WrittenIsPublished(e);
    BlockIsRead(Written(e), rest);
  }

  lemma {:induction false} FirstIsWritten(entries: seq<Entry>, epilogue: seq<string>)
    requires entries != []
    ensures FileLines(WriteAll(entries)) + epilogue
         == BlockLines(Written(entries[0])) + (FileLines(WriteAll(entries[1..])) + epilogue)
  {
    assert WriteAll(entries)[1..] == WriteAll(entries[1..]);
  }

  lemma {:induction false} AllWrittenAreRead(entries: seq<Entry>, epilogue: seq<string>)
    requires NoHeadings(epilogue)
    requires forall k | 0 <= k < |entries| :: Documented(entries[k])
    ensures Reviews(FileLines(WriteAll(entries)) + epilogue) == PublishAll(entries)
  {
    if entries == [] {
      SkipsToHeading(epilogue, []);
      assert epilogue + [] == epilogue && [] + epilogue == epilogue;
    } else {
      FirstIsWritten(entries, epilogue);
      WrittenIsRead(entries[0], FileLines(WriteAll(entries[1..])) + epilogue);
      AllWrittenAreRead(entries[1..], epilogue);
    }
  }

  /** Round trip: what the documented layout writes, between any other lines, the scanner reads back. */
  lemma {:induction false} WrittenEntriesAreRead(preamble: seq<string>, entries: seq<Entry>, epilogue: seq<string>)
    requires NoHeadings(preamble) && NoHeadings(epilogue)
    requires forall k | 0 <= k < |entries| :: Documented(entries[k])
    ensures Reviews(preamble + (FileLines(WriteAll(entries)) + epilogue)) == PublishAll(entries)
  {
    SkipsToHeading(preamble, FileLines(WriteAll(entries)) + epilogue);
    AllWrittenAreRead(entries, epilogue);
  }

  /** A sample entry: two paragraphs of text, the first on two lines, and a reply. */
  function Sample(): Entry {
    Entry("1", "Ana", 2, 1, "Roma", "ayer", [["Muy", "bien."], ["Fin."]], [["Gracias."]])
  }

  lemma {:induction false} SampleReply()
    ensures ReplyBlock([["Gracias."]]) == ["> **Respuesta del restaurante**: Gracias.", ""]
  {
    var reply: seq<seq<string>> := [["Gracias."]];
    var labelled := Labelled(reply);
    var line := REPLY_LABEL + " " + reply[0][0];
    assert line == "**Respuesta del restaurante**: Gracias." by {
      assert REPLY_LABEL == "**Respuesta del restaurante**:";
      assert reply[0][0] == "Gracias.";
      assert |line| == |"**Respuesta del restaurante**: Gracias."|;
    }
    assert labelled == [[line] + reply[0][1..]] + reply[1..];
    assert [line] + reply[0][1..] == [line] && labelled == [[line]];
    SpacedOutStep(labelled);
    var texts := Lay(SpacedOut(labelled));
    assert texts == ["**Respuesta del restaurante**: Gracias.", ""];
    assert texts[..1] == [texts[0]];
    assert QuotedAll([texts[0]]) == [Quoted(texts[0])] + QuotedAll([]);
    var quoted := "> " + texts[0];
    assert |quoted| == |"> **Respuesta del restaurante**: Gracias."|;
    assert quoted == "> **Respuesta del restaurante**: Gracias.";
    assert Quoted(texts[0]) == quoted;
  }

  lemma {:induction false} SampleBody()
    ensures Lay(SpacedOut([["Muy", "bien."], ["Fin."]])) == ["Muy", "bien.", "", "Fin.", ""]
  {
    var body: seq<seq<string>> := [["Muy", "bien."], ["Fin."]];
    SpacedOutStep(body);
    SpacedOutStep(body[1..]);
  }

  /** How the layout looks, line by line. */
  lemma {:induction false} SampleLines()
    ensures BlockLines(Written(Sample())) == [
      "## 1. Ana \U{2014} \U{2605}\U{2605}\U{2606}", "*Roma \U{B7} ayer*", "", "Muy", "bien.", "", "Fin.", "",
      "> **Respuesta del restaurante**: Gracias.", "", "---", ""]
  {
    var e := Sample();
    assert HeadingLine(e) == "## 1. Ana \U{2014} \U{2605}\U{2605}\U{2606}";
    assert MetadataLine(e) == "*Roma \U{B7} ayer*";
    SampleBody();
    SampleReply();
  }

  /** What is published of it. */
  lemma {:induction false} SamplePublished()
    ensures Published(Sample()) == Review("Ana", Some("Roma"), 2, "Muy bien.\n\nFin.", Some("Gracias."))
  {
    var e := Sample();
    TrimIsStripped("Muy");
    TrimIsStripped("bien.");
    TrimIsStripped("Fin.");
    TrimIsStripped("Gracias.");
    assert StripAll(["Muy", "bien."]) == ["Muy", "bien."] && StripAll(["Fin."]) == ["Fin."];
    assert StripAll(["Gracias."]) == ["Gracias."];
    assert e.body[1..] == [["Fin."]];
    assert Stripped([["Fin."]]) == [StripAll(["Fin."])] + Stripped([]);
    assert Stripped(e.body) == [["Muy", "bien."], ["Fin."]];
    assert Join(["Muy", "bien."], " ") == "Muy bien.";
    assert JoinEach([["Fin."]]) == ["Fin."] + JoinEach([]);
    assert JoinEach(Stripped(e.body)) == ["Muy bien.", "Fin."];
    assert Stripped(e.reply) == [["Gracias."]];
    assert JoinEach([["Gracias."]]) == ["Gracias."] + JoinEach([]);
  }

  // ----- the text of the file

  /** Each line with a newline at its end. */
  function FileText(lines: seq<string>): string {
    if lines == [] then "" else lines[0] + "\n" + FileText(lines[1..])
  }

  predicate OneLines(lines: seq<string>) {
    forall k | 0 <= k < |lines| :: OneLine(lines[k])
  }

  lemma {:induction false} SplitUndoesFileText(lines: seq<string>)
    requires OneLines(lines)
    ensures SplitLines(FileText(lines)) == lines
  {
    if lines != [] {
      var rest := FileText(lines[1..]);
      assert lines[0] + "\n" + rest == lines[0] + ("\n" + rest);
      SplitReadsLine("", lines[0], "\n" + rest);
      assert "" + lines[0] == lines[0];
      assert ("\n" + rest)[1..] == rest;
      SplitUndoesFileText(lines[1..]);
    }
  }

  /** No part of the entry has a line break inside. */
  predicate Unbroken(e: Entry) {
    && OneLine(e.name) && OneLine(e.city) && OneLine(e.date)
    && (forall k | 0 <= k < |e.body| :: OneLines(e.body[k]))
    && (forall k | 0 <= k < |e.reply| :: OneLines(e.reply[k]))
  }

  lemma {:induction false} NumberIsUnbroken(number: string)
    requires All(number, IsDigit)
    ensures OneLine(number)
  {
    forall c | c in number ensures !IsBreak(c) {
      DigitsAreNeither(c);
    }
  }

  lemma {:induction false} SpacedOutUnbroken(paragraphs: seq<seq<string>>)
    requires forall k | 0 <= k < |paragraphs| :: OneLines(paragraphs[k])
    ensures OneLines(Lay(SpacedOut(paragraphs)))
  {
    if paragraphs != [] {
      SpacedOutUnbroken(paragraphs[1..]);
      SpacedOutStep(paragraphs);
      assert OneLines(paragraphs[0]);
    }
  }

  lemma {:induction false} QuotedUnbroken(texts: seq<string>)
    requires OneLines(texts)
    ensures OneLines(QuotedAll(texts))
  {
    if texts != [] {
      QuotedUnbroken(texts[1..]);
    }
  }

  lemma {:induction false} LabelledUnbroken(reply: seq<seq<string>>)
    requires forall k | 0 <= k < |reply| :: OneLines(reply[k])
    ensures forall k | 0 <= k < |Labelled(reply)| :: OneLines(Labelled(reply)[k])
  {
    if reply != [] && reply[0] != [] {
      assert OneLines(reply[0]);
      assert OneLine(REPLY_LABEL + " " + reply[0][0]);
      assert OneLines(Labelled(reply)[0]);
    }
  }

  lemma {:induction false} HeadingUnbroken(e: Entry)
    requires Documented(e) && Unbroken(e)
    ensures OneLine(HeadingLine(e)) && OneLine(MetadataLine(e))
  {
    NumberIsUnbroken(e.number);
  }

  lemma {:induction false} ReplyBlockUnbroken(reply: seq<seq<string>>)
    requires forall k | 0 <= k < |reply| :: OneLines(reply[k])
    ensures OneLines(ReplyBlock(reply))
  {
    var texts := Lay(SpacedOut(Labelled(reply)));
    LabelledUnbroken(reply);
    SpacedOutUnbroken(Labelled(reply));
    if texts != [] {
      QuotedUnbroken(texts[..|texts| - 1]);
    }
  }

  lemma {:induction false} WrittenUnbroken(e: Entry)
    requires Documented(e) && Unbroken(e)
    ensures OneLines(BlockLines(Written(e)))
  {
    HeadingUnbroken(e);
    SpacedOutUnbroken(e.body);
    ReplyBlockUnbroken(e.reply);
    assert OneLines(Content(Written(e)));
  }

  lemma {:induction false} FileUnbroken(entries: seq<Entry>)
    requires forall k | 0 <= k < |entries| :: Documented(entries[k]) && Unbroken(entries[k])
    ensures OneLines(FileLines(WriteAll(entries)))
  {
    if entries != [] {
      var blocks := WriteAll(entries);
      WrittenUnbroken(entries[0]);
      FileUnbroken(entries[1..]);
      assert blocks[1..] == WriteAll(entries[1..]);
    }
  }

  /** Round trip on the text of the file: lines, expressions, scanner and paragraphs together undo the writing. */
  lemma {:induction false} FileRoundTrip(preamble: seq<string>, entries: seq<Entry>, epilogue: seq<string>)
    requires NoHeadings(preamble) && OneLines(preamble) && NoHeadings(epilogue) && OneLines(epilogue)
    requires forall k | 0 <= k < |entries| :: Documented(entries[k]) && Unbroken(entries[k])
    ensures var lines := preamble + (FileLines(WriteAll(entries)) + epilogue);
      Reviews(SplitLines(FileText(lines))) == PublishAll(entries)
  {
    FileUnbroken(entries);
    SplitUndoesFileText(preamble + (FileLines(WriteAll(entries)) + epilogue));
    WrittenEntriesAreRead(preamble, entries, epilogue);
  }
}
