/** The in-band directives of a planner response: the `<discord_reply>`
    delimiters that select the text shown in the chat, and the
    `<discord_review file="...">` markers that ask for an approval panel. */
module Directives {
  import opened Wrappers
  import opened Strings

  const OPEN_TAG := "<discord_reply>"
  const CLOSE_TAG := "</discord_reply>"
  const REVIEW_HEAD := "<discord_review"
  const FILE_ATTR := "file=\""
  const ATTR_END := "\">"

  // ---------------------------------------------------------------------
  // Reply delimiting

  /** The reply text for a raw response: the trimmed text after the first
      opening tag, up to the first closing tag after it or to the end; with
      no opening tag, the trimmed raw text on the final cycle when it is not
      blank, and nothing otherwise. */
  function ExtractReply(raw: string, isDone: bool): string {
    ExtractTagged(raw, OPEN_TAG, CLOSE_TAG, isDone)
  }

  /** The extraction of `ExtractReply` for any pair of tags: the result is
      trimmed at both ends and never longer than the response. The final
      cycle's `raw.trim()` when it is not blank, and `''` when it is, are
      both the trimmed raw text, so the extraction is one `trim` of the
      selected section. */
  function ExtractTagged(raw: string, open: string, close: string, isDone: bool): (r: string)
    ensures r == [] || (!IsSpace(r[0]) && !IsSpace(r[|r| - 1]))
    ensures |r| <= |raw|
  {
    Trim(Section(raw, open, close, isDone))
  }

  /** The part of the response the reply is cut from, before trimming:
      after the first opening tag, up to the first closing tag after it or
      to the end; with no opening tag, the whole response on the final
      cycle and nothing before it. */
  function Section(raw: string, open: string, close: string, isDone: bool): (r: string)
    ensures |r| <= |raw|
  {
    var start := IndexOf(raw, open, 0);
    if start != -1 then SectionFrom(raw, start + |open|, close)
    else if isDone then raw
    else ""
  }

  /** The text after an opening tag that ends at `contentStart`: up to the
      first closing tag after it, or to the end. */
  function SectionFrom(raw: string, contentStart: nat, close: string): (r: string)
    requires contentStart <= |raw|
    ensures |r| <= |raw| - contentStart
  {
    var end := IndexOf(raw, close, contentStart);
    if end != -1 then raw[contentStart..end] else raw[contentStart..]
  }

  /** `pat` occurs nowhere in `s`. */
  ghost predicate Absent(s: string, pat: string) {
    forall i: nat :: !OccursAt(s, pat, i)
  }

  /** Occurrences in a suffix are occurrences in the whole, shifted. */
  lemma OccursAtShift(p: string, s: string, pat: string, j: nat)
    ensures OccursAt(p + s, pat, |p| + j) == OccursAt(s, pat, j)
  {
    if j + |pat| <= |s| {
      assert (p + s)[|p| + j..|p| + j + |pat|] == s[j..j + |pat|];
    }
  }

  /** A search that starts inside a suffix finds what the search of the
      suffix finds, shifted. */
  lemma {:induction false} IndexOfShift(p: string, s: string, pat: string, j: nat)
    ensures IndexOf(p + s, pat, |p| + j) == if IndexOf(s, pat, j) == -1 then -1 else |p| + IndexOf(s, pat, j)
    decreases |s| - j
  {
    if j + |pat| <= |s| {
      assert (p + s)[|p| + j..|p| + j + |pat|] == s[j..j + |pat|];
      if s[j..j + |pat|] != pat {
        IndexOfShift(p, s, pat, j + 1);
      }
    }
  }

  /** When `pat` is absent from `pre` and its first character does not recur
      in it, its first occurrence in `pre + pat + x` is right after `pre`. */
  lemma {:induction false} FirstOccurrenceAfter(pre: string, pat: string, x: string)
    requires Absent(pre, pat)
    requires Unrepeating(pat)
    ensures IndexOf(pre + pat + x, pat, 0) == |pre|
  {
    var s := pre + pat + x;
    assert s[|pre|..|pre| + |pat|] == pat;
    assert OccursAt(s, pat, |pre|);
    forall i: nat | i < |pre| ensures !OccursAt(s, pat, i) {
      if i + |pat| <= |pre| {
        assert pre[i..i + |pat|] == s[i..i + |pat|];
        assert !OccursAt(pre, pat, i);
      } else if i + |pat| <= |s| {
        // an occurrence straddling the end of `pre` would repeat pat[0]
        var d := |pre| - i;
        assert s[i..i + |pat|][d] == s[|pre|] == pat[0];
        assert pat[1..][d - 1] == pat[d];
        assert pat[d] != pat[0];
        assert s[i..i + |pat|][d] != pat[d];
      }
    }
    IndexOfIs(s, pat, 0, |pre|);
  }

  lemma OpenTagShape()
    ensures Unrepeating(OPEN_TAG) && Unrepeating(CLOSE_TAG)
  {
  }

  /** The same, for a search that starts after a prefix `p`. */
  lemma FirstOccurrenceFrom(p: string, body: string, pat: string, post: string)
    requires Absent(body, pat)
    requires Unrepeating(pat)
    ensures IndexOf(p + (body + (pat + post)), pat, |p|) == |p| + |body|
  {
    FirstOccurrenceAfter(body, pat, post);
    AppendAssoc(body, pat, post);
    IndexOfShift(p, body + (pat + post), pat, 0);
  }

  /** A tag whose first character does not recur in it: a first occurrence
      of the tag cannot start inside an earlier partial one. */
  predicate Unrepeating(tag: string) {
    tag != [] && tag[0] !in tag[1..]
  }

  /** Once the opening tag is found, the section starts after it. */
  lemma SectionAt(raw: string, open: string, close: string, isDone: bool, start: nat)
    requires IndexOf(raw, open, 0) == start
    ensures Section(raw, open, close, isDone) == SectionFrom(raw, start + |open|, close)
  {}

  /** With the closing tag found, the section is the text between. */
  lemma SectionFromTo(raw: string, contentStart: nat, close: string, end: nat)
    requires contentStart <= |raw| && IndexOf(raw, close, contentStart) == end
    ensures contentStart <= end <= |raw|
    ensures SectionFrom(raw, contentStart, close) == raw[contentStart..end]
  {}

  /** With no closing tag, the section runs to the end of the text. */
  lemma SectionFromToEnd(raw: string, contentStart: nat, close: string)
    requires contentStart <= |raw| && IndexOf(raw, close, contentStart) == -1
    ensures SectionFrom(raw, contentStart, close) == raw[contentStart..]
  {}

  /** An opening tag absent from the text before it opens the section right
      after it. */
  lemma SectionAfterOpen(pre: string, open: string, rest: string, close: string, isDone: bool)
    requires Unrepeating(open) && Absent(pre, open)
    ensures Section(pre + open + rest, open, close, isDone)
         == SectionFrom(pre + open + rest, |pre| + |open|, close)
  {
    FirstOccurrenceAfter(pre, open, rest);
    SectionAt(pre + open + rest, open, close, isDone, |pre|);
  }

  /** From the start of the content, a closing tag absent from the body
      ends it. */
  lemma SectionClosed(p: string, body: string, close: string, post: string)
    requires Unrepeating(close) && Absent(body, close)
    ensures SectionFrom(p + (body + (close + post)), |p|, close) == body
  {
    var tail := body + (close + post);
    var raw := p + tail;
    FirstOccurrenceFrom(p, body, close, post);
    SectionFromTo(raw, |p|, close, |p| + |body|);
    ConcatParts(p, tail);
    ConcatParts(body, close + post);
    assert raw[|p|..|p| + |body|] == raw[|p|..][..|body|];
  }

  /** From the start of the content, without a closing tag the content runs
      to the end. */
  lemma SectionUnclosed(p: string, rest: string, close: string)
    requires Absent(rest, close)
    ensures SectionFrom(p + rest, |p|, close) == rest
  {
    IndexOfFirst(rest, close, 0);
    IndexOfShift(p, rest, close, 0);
    SectionFromToEnd(p + rest, |p|, close);
    ConcatParts(p, rest);
  }

  /** The section between an opening and a closing tag is the text between
      them. */
  lemma SectionBetween(pre: string, open: string, body: string, close: string, post: string, isDone: bool)
    requires Unrepeating(open) && Unrepeating(close)
    requires Absent(pre, open) && Absent(body, close)
    ensures Section(pre + open + body + close + post, open, close, isDone) == body
  {
    var rest := body + (close + post);
    AppendAssoc(pre + open + body, close, post);
    AppendAssoc(pre + open, body, close + post);
    SectionSame(pre + open + body + close + post, pre + open + rest, open, close, isDone);
    SectionAfterOpen(pre, open, rest, close, isDone);
    SectionClosed(pre + open, body, close, post);
  }

  /** A delimited text is extracted trimmed, whatever surrounds the tags. */
  lemma TaggedBetween(pre: string, open: string, body: string, close: string, post: string, isDone: bool)
    requires Unrepeating(open) && Unrepeating(close)
    requires Absent(pre, open) && Absent(body, close)
    ensures ExtractTagged(pre + open + body + close + post, open, close, isDone) == Trim(body)
  {
    var raw := pre + open + body + close + post;
    SectionBetween(pre, open, body, close, post, isDone);
    TrimSame(Section(raw, open, close, isDone), body);
  }

  /** An opened but not yet closed text is extracted up to its end. */
  lemma TaggedAfterOpen(pre: string, open: string, rest: string, close: string, isDone: bool)
    requires Unrepeating(open)
    requires Absent(pre, open) && Absent(rest, close)
    ensures ExtractTagged(pre + open + rest, open, close, isDone) == Trim(rest)
  {
    var raw := pre + open + rest;
    SectionAfterOpen(pre, open, rest, close, isDone);
    SectionUnclosed(pre + open, rest, close);
    TrimSame(Section(raw, open, close, isDone), rest);
  }

  /** A delimited reply is shown trimmed, whatever surrounds the tags. */
  lemma ReplyBetweenTags(pre: string, body: string, post: string, isDone: bool)
    requires Absent(pre, OPEN_TAG) && Absent(body, CLOSE_TAG)
    ensures ExtractReply(pre + OPEN_TAG + body + CLOSE_TAG + post, isDone) == Trim(body)
  {
    OpenTagShape();
    TaggedBetween(pre, OPEN_TAG, body, CLOSE_TAG, post, isDone);
  }

  /** An opened but not yet closed reply shows everything after the tag. */
  lemma ReplyAfterOpenTag(pre: string, rest: string, isDone: bool)
    requires Absent(pre, OPEN_TAG) && Absent(rest, CLOSE_TAG)
    ensures ExtractReply(pre + OPEN_TAG + rest, isDone) == Trim(rest)
  {
    OpenTagShape();
    TaggedAfterOpen(pre, OPEN_TAG, rest, CLOSE_TAG, isDone);
  }

  /** Without an opening tag the raw text is shown only on the final cycle;
      while the turn runs the reasoning trace stays hidden. */
  lemma ReplyWithoutTags(raw: string, isDone: bool)
    requires Absent(raw, OPEN_TAG)
    ensures ExtractReply(raw, isDone) == if isDone then Trim(raw) else ""
  {
    IndexOfFirst(raw, OPEN_TAG, 0);
  }

  /** The text shown while a reply is still empty. */
  function Placeholder(modelDisplay: string, mode: string): string {
    "🤔 Processing task... (`" + modelDisplay + "` / `" + mode + "`)"
  }

  /** The text the loop shows for a raw response: the extracted reply, or the
      placeholder when that is blank; it is never blank. */
  function DisplayText(raw: string, isDone: bool, modelDisplay: string, mode: string): (r: string)
    ensures !IsBlank(r)
    ensures ExtractReply(raw, isDone) != [] ==> r == ExtractReply(raw, isDone)
    ensures ExtractReply(raw, isDone) == [] ==> r == Placeholder(modelDisplay, mode)
  {
    var t := ExtractReply(raw, isDone);
    if Trim(t) == "" then
      assert Placeholder(modelDisplay, mode)[0] == '🤔';
      Placeholder(modelDisplay, mode)
    else t
  }

  // ---------------------------------------------------------------------
  // Review markers

  predicate NotQuote(c: char) { c != '"' }

  /** What `([^"]+)` can capture. */
  predicate ValidPath(f: string) { f != [] && '"' !in f }

  /** A marker `head\s+attrPATHend` whose matches a left-to-right scan
      finds: the head has a first character, the attribute does not start
      with a space, and the attribute end starts with the quote that closes
      the path. */
  predicate Scannable(head: string, attr: string, end: string) {
    head != [] && attr != [] && !IsSpace(attr[0]) && end != [] && end[0] == '"'
  }

  /** '<' does not recur in the review-marker head. */
  lemma ReviewHeadUnrepeating()
    ensures Unrepeating(REVIEW_HEAD)
  {
    assert REVIEW_HEAD[1..] == "discord_review";
  }

  lemma ReviewSyntaxShape()
    ensures Scannable(REVIEW_HEAD, FILE_ATTR, ATTR_END) && REVIEW_HEAD[0] == '<'
  {
  }

  /** The capture of `/<discord_review\s+file="([^"]+)">/` for a match that
      starts at the first character of `s`, with the length of the match. */
  function ReviewAt(s: string): (r: Option<(string, nat)>)
    ensures r.Some? ==> StartsWith(s, REVIEW_HEAD)
    ensures r.Some? ==> 0 < r.value.1 <= |s| && ValidPath(r.value.0)
  {
    MarkerAt(s, REVIEW_HEAD, FILE_ATTR, ATTR_END)
  }

  /** The match of the marker `head\s+attrPATHend` at the first character
      of `s`: the head, one or more spaces, the attribute, a non-empty path
      without quotes and the attribute end. Neither repetition can usefully
      give characters back: what follows `\s+` is not a space, and what
      follows `[^"]+` is a quote. */
  function MarkerAt(s: string, head: string, attr: string, end: string): (r: Option<(string, nat)>)
    ensures r.Some? ==> StartsWith(s, head)
    ensures r.Some? ==> 0 < r.value.1 <= |s| && ValidPath(r.value.0)
  {
    if !StartsWith(s, head) then None
    else AttrAt(s[|head|..], |head|, attr, end)
  }

  /** The rest of a match after the `consumed` characters of the head. */
  function AttrAt(t: string, consumed: nat, attr: string, end: string): (r: Option<(string, nat)>)
    ensures r.Some? ==> consumed < r.value.1 <= consumed + |t| && ValidPath(r.value.0)
  {
    var w := Span(t, IsSpace);
    if w == 0 || !StartsWith(t[w..], attr) then None
    else PathAt(t[w..][|attr|..], consumed + w + |attr|, end)
  }

  /** The path and the attribute end of a match, after `consumed`
      characters. */
  function PathAt(t: string, consumed: nat, end: string): (r: Option<(string, nat)>)
    ensures r.Some? ==> consumed < r.value.1 <= consumed + |t| && ValidPath(r.value.0)
  {
    var n := Span(t, NotQuote);
    if n == 0 || !StartsWith(t[n..], end) then None
    else
      assert forall k :: 0 <= k < n ==> t[k] == t[..n][k];
      Some((t[..n], consumed + n + |end|))
  }

  /** The paths the global regular expression yields, in text order: each
      search resumes where the previous match ended. */
  function ReviewPaths(s: string): (r: seq<string>)
    ensures forall k :: 0 <= k < |r| ==> ValidPath(r[k])
  {
    ScanPaths(s, REVIEW_HEAD, FILE_ATTR, ATTR_END)
  }

  /** The paths of every match of the marker in `s`, scanning left to right. */
  function ScanPaths(s: string, head: string, attr: string, end: string): (r: seq<string>)
    ensures forall k :: 0 <= k < |r| ==> ValidPath(r[k])
    decreases |s|
  {
    if s == [] then []
    else match MarkerAt(s, head, attr, end)
      case Some((f, n)) => [f] + ScanPaths(s[n..], head, attr, end)
      case None => ScanPaths(s[1..], head, attr, end)
  }

  /** The marker a response writes for path `f`. */
  function ReviewMarker(f: string): string {
    MarkerFor(REVIEW_HEAD, FILE_ATTR, ATTR_END, f)
  }

  /** The text of a marker for path `f`, with one space. */
  function MarkerFor(head: string, attr: string, end: string, f: string): string {
    head + " " + attr + f + end
  }

  /** A path followed by the attribute end is matched whole. */
  lemma PathAtWhole(f: string, end: string, rest: string, consumed: nat)
    requires ValidPath(f) && end != [] && end[0] == '"'
    ensures var r := PathAt(f + (end + rest), consumed, end);
            r.Some? && r.value.0 == f && r.value.1 == consumed + |f| + |end|
  {
    var closing := end + rest;
    ConcatParts(f, closing);
    SpanConcat(f, closing, NotQuote);
    ConcatParts(end, rest);
  }

  /** One space, the attribute, a path and the attribute end are matched
      whole. */
  lemma AttrAtWhole(attr: string, f: string, end: string, rest: string, consumed: nat)
    requires ValidPath(f) && attr != [] && !IsSpace(attr[0]) && end != [] && end[0] == '"'
    ensures var r := AttrAt(" " + (attr + (f + (end + rest))), consumed, attr, end);
            r.Some? && r.value.0 == f && r.value.1 == consumed + 1 + |attr| + |f| + |end|
  {
    var path := f + (end + rest);
    var attrPath := attr + path;
    ConcatParts(" ", attrPath);
    SpanConcat(" ", attrPath, IsSpace);
    ConcatParts(attr, path);
    PathAtWhole(f, end, rest, consumed + 1 + |attr|);
  }

  /** After its head, a match is decided by what follows the head. */
  lemma MarkerAtHead(head: string, t: string, attr: string, end: string)
    ensures MarkerAt(head + t, head, attr, end) == AttrAt(t, |head|, attr, end)
  {
    ConcatParts(head, t);
  }

  /** A marker at the start of the text is matched whole. */
  lemma MarkerAtWhole(head: string, attr: string, end: string, f: string, rest: string)
    requires Scannable(head, attr, end) && ValidPath(f)
    ensures var r := MarkerAt(head + (" " + (attr + (f + (end + rest)))), head, attr, end);
            r.Some? && r.value.0 == f && r.value.1 == |head| + 1 + |attr| + |f| + |end|
  {
    MarkerAtHead(head, " " + (attr + (f + (end + rest))), attr, end);
    AttrAtWhole(attr, f, end, rest, |head|);
  }

  /** A marker followed by more text, with its parts regrouped. */
  lemma MarkerForAssoc(head: string, attr: string, end: string, f: string, rest: string)
    ensures MarkerFor(head, attr, end, f) + rest == head + (" " + (attr + (f + (end + rest))))
    ensures |MarkerFor(head, attr, end, f)| == |head| + 1 + |attr| + |f| + |end|
  {
    AppendAssoc(head + " " + attr + f, end, rest);
    AppendAssoc(head + " " + attr, f, end + rest);
    AppendAssoc(head + " ", attr, f + (end + rest));
    AppendAssoc(head, " ", attr + (f + (end + rest)));
  }

  /** A marker at the start of the text is matched whole, whatever follows
      it. */
  lemma MarkerForMatched(head: string, attr: string, end: string, f: string, rest: string)
    requires Scannable(head, attr, end) && ValidPath(f)
    ensures var r := MarkerAt(MarkerFor(head, attr, end, f) + rest, head, attr, end);
            r.Some? && r.value.0 == f && r.value.1 == |MarkerFor(head, attr, end, f)|
  {
    MarkerForAssoc(head, attr, end, f, rest);
    MarkerAtWhole(head, attr, end, f, rest);
    MarkerAtEqual(MarkerFor(head, attr, end, f) + rest, head + (" " + (attr + (f + (end + rest)))), head, attr, end);
  }

  /** A review marker at the start of the text is matched whole. */
  lemma ReviewAtMarker(f: string, rest: string)
    requires ValidPath(f)
    ensures var r := ReviewAt(ReviewMarker(f) + rest);
            r.Some? && r.value.0 == f && r.value.1 == |ReviewMarker(f)|
  {
    ReviewSyntaxShape();
    MarkerForMatched(REVIEW_HEAD, FILE_ATTR, ATTR_END, f, rest);
  }

  /** No copy of the head starts at any of the first `n` characters of `s`. */
  ghost predicate NoHeadBefore(s: string, head: string, n: nat)
    requires n <= |s|
  {
    forall i :: 0 <= i < n ==> !StartsWith(s[i..], head)
  }

  /** Text in which no copy of the head starts holds no match and is
      skipped. */
  lemma {:induction false} ScanSkipText(head: string, attr: string, end: string, gap: string, rest: string)
    requires NoHeadBefore(gap + rest, head, |gap|)
    ensures ScanPaths(gap + rest, head, attr, end) == ScanPaths(rest, head, attr, end)
    decreases |gap|
  {
    if gap != [] {
      var s := gap + rest;
      assert !StartsWith(s[0..], head);
      assert s[0..] == s;
      assert ScanPaths(s, head, attr, end) == ScanPaths(s[1..], head, attr, end);
      assert s[1..] == gap[1..] + rest;
      forall i | 0 <= i < |gap[1..]| ensures !StartsWith((gap[1..] + rest)[i..], head) {
        assert (gap[1..] + rest)[i..] == s[i + 1..];
      }
      ScanSkipText(head, attr, end, gap[1..], rest);
    } else {
      assert gap + rest == rest;
    }
  }

  /** No copy of the head starts in text without the head's first
      character. */
  lemma HeadFreeGap(head: string, gap: string, rest: string)
    requires head != [] && head[0] !in gap
    ensures NoHeadBefore(gap + rest, head, |gap|)
  {
    var s := gap + rest;
    forall i | 0 <= i < |gap| ensures !StartsWith(s[i..], head) {
      assert s[i..][0] == gap[i];
    }
  }

  /** When the first character of the head does not recur in it, no copy of
      the head starts in text that holds no whole head and is followed by
      the head's first character or by nothing: a copy straddling the end of
      that text would repeat the first character. */
  lemma AbsentGap(head: string, gap: string, rest: string)
    requires Unrepeating(head) && Absent(gap, head) && (rest == [] || rest[0] == head[0])
    ensures NoHeadBefore(gap + rest, head, |gap|)
  {
    var s := gap + rest;
    forall i | 0 <= i < |gap| ensures !StartsWith(s[i..], head) {
      if i + |head| <= |gap| {
        assert s[i..][..|head|] == gap[i..i + |head|];
        assert !OccursAt(gap, head, i);
      } else if |head| <= |s[i..]| {
        var j := |gap| - i;
        assert 0 < j < |head| && rest != [];
        assert s[i..][..|head|][j] == rest[0] == head[0];
        assert head[j] == head[1..][j - 1] != head[0];
      }
    }
  }

  /** Text without '<' holds no review marker and is skipped; so is text
      with no whole review-marker head that runs up to the next '<' or to
      the end of the response. */
  lemma ReviewPathsSkipText(gap: string, rest: string)
    requires '<' !in gap || (Absent(gap, REVIEW_HEAD) && (rest == [] || rest[0] == '<'))
    ensures ReviewPaths(gap + rest) == ReviewPaths(rest)
  {
    ReviewSyntaxShape();
    if '<' !in gap {
      HeadFreeGap(REVIEW_HEAD, gap, rest);
    } else {
      ReviewHeadUnrepeating();
      AbsentGap(REVIEW_HEAD, gap, rest);
    }
    ScanSkipText(REVIEW_HEAD, FILE_ATTR, ATTR_END, gap, rest);
  }

  /** Text with no whole head followed by a marker yields the marker's
      path, and the scan resumes right after the marker. */
  lemma ScanGapMarker(head: string, attr: string, end: string, gap: string, f: string, tail: string)
    requires Scannable(head, attr, end) && Unrepeating(head) && Absent(gap, head) && ValidPath(f)
    ensures ScanPaths(gap + (MarkerFor(head, attr, end, f) + tail), head, attr, end) == [f] + ScanPaths(tail, head, attr, end)
  {
    var k := MarkerFor(head, attr, end, f);
    assert (k + tail)[0] == head[0];
    AbsentGap(head, gap, k + tail);
    ScanSkipText(head, attr, end, gap, k + tail);
    MarkerForMatched(head, attr, end, f, tail);
    ConcatParts(k, tail);
  }

  /** Text made of markers separated by gaps of other text. */
  function MarkedText(head: string, attr: string, end: string, gaps: seq<string>, files: seq<string>): string
    requires |gaps| == |files| + 1
    decreases |files|
  {
    if files == [] then gaps[0]
    else gaps[0] + (MarkerFor(head, attr, end, files[0]) + MarkedText(head, attr, end, gaps[1..], files[1..]))
  }

  /** One step of the scan of such a text: the first gap is skipped and the
      first marker found. */
  lemma ScanMarkedStep(head: string, attr: string, end: string, gaps: seq<string>, files: seq<string>)
    requires Scannable(head, attr, end) && Unrepeating(head) && |gaps| == |files| + 1 && files != []
    requires Absent(gaps[0], head) && ValidPath(files[0])
    ensures ScanPaths(MarkedText(head, attr, end, gaps, files), head, attr, end)
         == [files[0]] + ScanPaths(MarkedText(head, attr, end, gaps[1..], files[1..]), head, attr, end)
  {
    ScanGapMarker(head, attr, end, gaps[0], files[0], MarkedText(head, attr, end, gaps[1..], files[1..]));
  }

  /** A text that is a single gap holds no marker. */
  lemma ScanMarkedEmpty(head: string, attr: string, end: string, gaps: seq<string>)
    requires Unrepeating(head) && |gaps| == 1 && Absent(gaps[0], head)
    ensures ScanPaths(MarkedText(head, attr, end, gaps, []), head, attr, end) == []
  {
    var g := gaps[0];
    AbsentGap(head, g, "");
    ScanSkipText(head, attr, end, g, "");
    assert g + "" == g;
  }

  /** The scan finds exactly the markers of such a text, in order. */
  lemma {:induction false} ScanMarkedText(head: string, attr: string, end: string, gaps: seq<string>, files: seq<string>)
    requires Scannable(head, attr, end) && Unrepeating(head) && |gaps| == |files| + 1
    requires forall k :: 0 <= k < |gaps| ==> Absent(gaps[k], head)
    requires forall k :: 0 <= k < |files| ==> ValidPath(files[k])
    ensures ScanPaths(MarkedText(head, attr, end, gaps, files), head, attr, end) == files
    decreases |files|
  {
    if files == [] {
      ScanMarkedEmpty(head, attr, end, gaps);
    } else {
      ScanMarkedStep(head, attr, end, gaps, files);
      assert forall k :: 0 <= k < |gaps| - 1 ==> gaps[1..][k] == gaps[k + 1];
      ScanMarkedText(head, attr, end, gaps[1..], files[1..]);
      ConsSame(ScanPaths(MarkedText(head, attr, end, gaps, files), head, attr, end),
               ScanPaths(MarkedText(head, attr, end, gaps[1..], files[1..]), head, attr, end), files);
    }
  }

  /** A response made of review markers separated by gaps of other text. */
  function Document(gaps: seq<string>, files: seq<string>): string
    requires |gaps| == |files| + 1
  {
    MarkedText(REVIEW_HEAD, FILE_ATTR, ATTR_END, gaps, files)
  }

  /** The scan finds exactly the review markers of such a response, in
      order. */
  lemma ReviewPathsOfDocument(gaps: seq<string>, files: seq<string>)
    requires |gaps| == |files| + 1
    requires forall k :: 0 <= k < |gaps| ==> Absent(gaps[k], REVIEW_HEAD)
    requires forall k :: 0 <= k < |files| ==> ValidPath(files[k])
    ensures ReviewPaths(Document(gaps, files)) == files
  {
    ReviewSyntaxShape();
    ReviewHeadUnrepeating();
    ScanMarkedText(REVIEW_HEAD, FILE_ATTR, ATTR_END, gaps, files);
  }

  // ---------------------------------------------------------------------
  // Congruence steps
  //
  // Equal arguments give equal results. Each is stated on its own so that
  // the proofs above can take the step in a small context instead of
  // rewriting long concatenations where they stand.

  lemma SectionSame(x: string, y: string, open: string, close: string, isDone: bool)
    requires x == y
    ensures Section(x, open, close, isDone) == Section(y, open, close, isDone)
  {}

  lemma TrimSame(x: string, y: string)
    requires x == y
    ensures Trim(x) == Trim(y)
  {}

  lemma MarkerAtEqual(x: string, y: string, head: string, attr: string, end: string)
    requires x == y
    ensures var r, q := MarkerAt(x, head, attr, end), MarkerAt(y, head, attr, end);
            r.Some? == q.Some? && (r.Some? ==> r.value.0 == q.value.0 && r.value.1 == q.value.1)
  {
  }

  lemma ConsSame<T>(x: seq<T>, rest: seq<T>, xs: seq<T>)
    requires xs != [] && rest == xs[1..] && x == [xs[0]] + rest
    ensures x == xs
  {
    assert [xs[0]] + xs[1..] == xs;
  }
}
