/**
 * The hand-written `multipart/form-data` reader of the customer media upload:
 * the boundary parameter of the Content-Type header, the split of the raw
 * body at each `--boundary`, and the reading of one part (its
 * Content-Disposition name and filename, its Content-Type and its content).
 * A body is a sequence of characters, one per octet.
 */
module Multipart {
  import opened Wrappers
  import opened Text

  /** `s` has the ASCII text `pattern` (given in lower case) at `p`, ignoring the case of letters. */
  predicate CaseInsensitiveAt(s: string, p: nat, pattern: string) {
    p + |pattern| <= |s| && ToLowerAscii(s[p..p + |pattern|]) == pattern
  }

  /** The end of the run of characters from `i` on that are not `stop`. */
  function RunUntil(s: string, i: nat, stop: char): (e: nat)
    requires i <= |s|
    ensures i <= e <= |s|
    ensures forall j :: i <= j < e ==> s[j] != stop
    ensures e == |s| || s[e] == stop
    decreases |s| - i
  {
    if i == |s| || s[i] == stop then i else RunUntil(s, i + 1, stop)
  }

  /** The end of the run of characters from `i` on that are neither CR nor LF. */
  function LineRunEnd(s: string, i: nat): (e: nat)
    requires i <= |s|
    ensures i <= e <= |s|
    ensures forall j :: i <= j < e ==> !IsCrOrLf(s[j])
    ensures e == |s| || IsCrOrLf(s[e])
    decreases |s| - i
  {
    if i == |s| || IsCrOrLf(s[i]) then i else LineRunEnd(s, i + 1)
  }

  /** The last position in `[lo, hi)` holding neither CR nor LF. */
  function LastNonCrLf(s: string, lo: nat, hi: nat): (r: Option<nat>)
    requires lo <= hi <= |s|
    ensures r.Some? ==> lo <= r.value < hi && !IsCrOrLf(s[r.value]) && forall j :: r.value < j < hi ==> IsCrOrLf(s[j])
    ensures r.None? ==> forall j :: lo <= j < hi ==> IsCrOrLf(s[j])
    decreases hi - lo
  {
    if lo == hi then None
    else if !IsCrOrLf(s[hi - 1]) then Some(hi - 1)
    else LastNonCrLf(s, lo, hi - 1)
  }

  /** The four regular expressions of the reader, all case-insensitive. */
  datatype Pattern =
    | BoundaryParam    // boundary=([^;]+)
    | NameParam        // name="([^"]+)"
    | FilenameParam    // filename="([^"]*)"
    | ContentTypeLine  // content-type:\s*([^\r\n]+)

  function Literal(pat: Pattern): string {
    match pat
    case BoundaryParam => "boundary="
    case NameParam => "name=\""
    case FilenameParam => "filename=\""
    case ContentTypeLine => "content-type:"
  }

  /** `boundary=([^;]+)` after the literal, which ends at `q`. */
  function BoundaryCapture(s: string, q: nat): (r: Option<string>)
    requires q <= |s|
    ensures r.Some? ==> r.value != [] && ';' !in r.value
  {
    var e := RunUntil(s, q, ';');
    if e == q then None else Some(s[q..e])
  }

  /** `name="([^"]+)"` after the literal, which ends at `q`. */
  function NameCapture(s: string, q: nat): (r: Option<string>)
    requires q <= |s|
    ensures r.Some? ==> r.value != [] && '"' !in r.value
  {
    var e := RunUntil(s, q, '"');
    if e == q || e == |s| then None else Some(s[q..e])
  }

  /** `filename="([^"]*)"` after the literal, which ends at `q`. */
  function FilenameCapture(s: string, q: nat): (r: Option<string>)
    requires q <= |s|
    ensures r.Some? ==> '"' !in r.value
  {
    var e := RunUntil(s, q, '"');
    if e == |s| then None else Some(s[q..e])
  }

  /** `content-type:\s*([^\r\n]+)` after the literal, which ends at `q`. */
  function ContentTypeCapture(s: string, q: nat): (r: Option<string>)
    requires q <= |s|
    ensures r.Some? ==> r.value != [] && forall c :: c in r.value ==> !IsCrOrLf(c)
  {
    var w := SpaceRunEnd(s, q);
    if w < |s| then
      // `\s*` stops before a character that `[^\r\n]` accepts
      Some(s[w..LineRunEnd(s, w)])
    else
      // `\s*` reached the end and gives back characters until `[^\r\n]` finds one
      match LastNonCrLf(s, q, w)
      case None => None
      case Some(k) => Some(s[k..k + 1])
  }

  /**
   * The capture of `pat` when the match starts at `p`, following the
   * backtracking of the greedy quantifiers, or None when no match starts there.
   */
  function MatchAt(pat: Pattern, s: string, p: nat): (r: Option<string>)
    ensures r.Some? ==> CaseInsensitiveAt(s, p, Literal(pat))
    ensures r.Some? && pat == BoundaryParam ==> r.value != [] && ';' !in r.value
    ensures r.Some? && pat == NameParam ==> r.value != [] && '"' !in r.value
    ensures r.Some? && pat == FilenameParam ==> '"' !in r.value
    ensures r.Some? && pat == ContentTypeLine ==> r.value != [] && forall c :: c in r.value ==> !IsCrOrLf(c)
  {
    var lit := Literal(pat);
    if !CaseInsensitiveAt(s, p, lit) then None
    else
      var q := p + |lit|;
      match pat
      case BoundaryParam => BoundaryCapture(s, q)
      case NameParam => NameCapture(s, q)
      case FilenameParam => FilenameCapture(s, q)
      case ContentTypeLine => ContentTypeCapture(s, q)
  }

  /** The capture of a match starting at each position of `s`, end included. */
  function Captures(pat: Pattern, s: string): (ms: seq<Option<string>>)
    ensures |ms| == |s| + 1
  {
    seq(|s| + 1, q requires 0 <= q <= |s| => MatchAt(pat, s, q))
  }

  /** The first position at or after `p` holding a value. */
  function FirstSome<T>(ms: seq<Option<T>>, p: nat): (r: Option<nat>)
    ensures r.Some? ==> p <= r.value < |ms| && ms[r.value].Some?
    decreases |ms| - p
  {
    if p >= |ms| then None
    else if ms[p].Some? then Some(p)
    else FirstSome(ms, p + 1)
  }

  /** Nothing before the first value, and nothing at all when there is none. */
  lemma {:induction false} FirstSomeLeftmost<T>(ms: seq<Option<T>>, p: nat)
    ensures var r := FirstSome(ms, p);
      forall q :: p <= q < |ms| && (r.None? || q < r.value) ==> ms[q].None?
    decreases |ms| - p
  {
    if p < |ms| && ms[p].None? {
      FirstSomeLeftmost(ms, p + 1);
    }
  }

  /** The first capture group of the leftmost match of `pat` in `s`, if any. */
  function FirstMatch(pat: Pattern, s: string): Option<string> {
    var ms := Captures(pat, s);
    match FirstSome(ms, 0)
    case None => None
    case Some(q) => ms[q]
  }

  /** The leftmost match: there is a match at `q`, none before it, and its capture is the result. */
  lemma FirstMatchLeftmost(pat: Pattern, s: string)
    ensures FirstMatch(pat, s).None? <==> forall q :: 0 <= q <= |s| ==> MatchAt(pat, s, q).None?
    ensures FirstMatch(pat, s).Some? ==> exists q :: 0 <= q <= |s| && FirstMatch(pat, s) == MatchAt(pat, s, q)
                                                     && forall q' :: 0 <= q' < q ==> MatchAt(pat, s, q').None?
  {
    var ms := Captures(pat, s);
    FirstSomeLeftmost(ms, 0);
    assert forall q :: 0 <= q <= |s| ==> ms[q] == MatchAt(pat, s, q);
  }

  /**
   * `replace(/^"|"$/g, "")`: one leading double quote is dropped exactly when
   * `s` starts with one, then one trailing double quote exactly when what is
   * left ends with one; the rest of `s` is kept as it is.
   */
  function StripQuotes(s: string): (r: string)
    ensures var i := if s != [] && s[0] == '"' then 1 else 0;
      && i + |r| <= |s| && r == s[i..i + |r|]
      && |s| - (i + |r|) <= 1
      && (i + |r| < |s| <==> i < |s| && s[|s| - 1] == '"')
    ensures forall c :: c in r ==> c in s
  {
    var a := if s != [] && s[0] == '"' then s[1..] else s;
    if a != [] && a[|a| - 1] == '"' then a[..|a| - 1] else a
  }

  /**
   * `getBoundary`: None when no `boundary=` is followed by a character other
   * than `;`; otherwise the text up to the next `;`, trimmed and unquoted.
   */
  function GetBoundary(contentType: string): (r: Option<string>)
    ensures r.None? <==> forall q :: 0 <= q <= |contentType| ==> MatchAt(BoundaryParam, contentType, q).None?
    ensures r.Some? ==> exists q :: 0 <= q <= |contentType| && MatchAt(BoundaryParam, contentType, q).Some?
                                    && r.value == StripQuotes(Trim(MatchAt(BoundaryParam, contentType, q).value))
                                    && forall q' :: 0 <= q' < q ==> MatchAt(BoundaryParam, contentType, q').None?
    ensures r.Some? ==> ';' !in r.value
  {
    FirstMatchLeftmost(BoundaryParam, contentType);
    match FirstMatch(BoundaryParam, contentType)
    case None => None
    case Some(c) =>
      var t := Trim(c);
      assert forall x :: x in t ==> x in c by {
        TrimKeepsCharacters(c);
      }
      Some(StripQuotes(t))
  }

  /** Every character of `Trim(s)` is a character of `s`. */
  lemma TrimKeepsCharacters(s: string)
    ensures forall x :: x in Trim(s) ==> x in s
  {
    var r := Trim(s);
    var i := LeadingSpace(s);
    forall x | x in r ensures x in s {
      var k :| 0 <= k < |r| && r[k] == x;
      assert s[i + k] == x;
    }
  }

  /** Two consecutive occurrences of the delimiter; the part between them is `body[start + |delim|..next]`. */
  datatype Span = Span(start: nat, next: nat)

  predicate SpansIn(body: string, delim: string, sp: seq<Span>) {
    forall k :: 0 <= k < |sp| ==> sp[k].start + |delim| <= sp[k].next <= |body|
  }

  /**
   * The pairs of delimiter occurrences the split loop visits from `cursor`:
   * the first occurrence at or after `cursor`, then each next occurrence not
   * overlapping the previous one; it stops when no further occurrence follows.
   */
  function Spans(body: string, delim: string, cursor: nat): (sp: seq<Span>)
    requires delim != []
    ensures SpansIn(body, delim, sp)
    decreases |body| - cursor
  {
    var start := IndexOf(body, delim, cursor);
    if start == -1 then []
    else
      var next := IndexOf(body, delim, start + |delim|);
      if next == -1 then []
      else [Span(start, next)] + Spans(body, delim, next)
  }

  /** The parts the spans delimit. */
  function PartsOf(body: string, delim: string, sp: seq<Span>): (parts: seq<string>)
    requires SpansIn(body, delim, sp)
  {
    seq(|sp|, k requires 0 <= k < |sp| => body[sp[k].start + |delim|..sp[k].next])
  }

  /** The raw parts of a body: everything strictly between consecutive delimiters. */
  function Segments(body: string, delim: string): seq<string>
    requires delim != []
  {
    PartsOf(body, delim, Spans(body, delim, 0))
  }

  ghost predicate EndsAreDelimiters(body: string, delim: string, cursor: nat, sp: seq<Span>) {
    forall k :: 0 <= k < |sp| ==> cursor <= sp[k].start && OccursAt(body, delim, sp[k].start) && OccursAt(body, delim, sp[k].next)
  }

  ghost predicate Chained(sp: seq<Span>) {
    forall k :: 0 <= k < |sp| - 1 ==> sp[k].next == sp[k + 1].start
  }

  ghost predicate HoldNoDelimiter(body: string, delim: string, sp: seq<Span>) {
    forall k, p :: 0 <= k < |sp| && sp[k].start + |delim| <= p < sp[k].next ==> !OccursAt(body, delim, p)
  }

  /** Each span runs from one occurrence of the delimiter to another. */
  lemma {:induction false} SpanEndsAreDelimiters(body: string, delim: string, cursor: nat)
    requires delim != []
    ensures EndsAreDelimiters(body, delim, cursor, Spans(body, delim, cursor))
    decreases |body| - cursor
  {
    var start := IndexOf(body, delim, cursor);
    if start != -1 {
      var next := IndexOf(body, delim, start + |delim|);
      if next != -1 {
        var rest := Spans(body, delim, next);
        SpanEndsAreDelimiters(body, delim, next);
        var sp := Spans(body, delim, cursor);
        assert sp == [Span(start, next)] + rest;
        forall k | 1 <= k < |sp|
          ensures cursor <= sp[k].start && OccursAt(body, delim, sp[k].start) && OccursAt(body, delim, sp[k].next)
        {
          assert sp[k] == rest[k - 1];
        }
      }
    }
  }

  /** Consecutive spans share their occurrence: the parts are everything between the occurrences used. */
  lemma {:induction false} SpansChain(body: string, delim: string, cursor: nat)
    requires delim != []
    ensures Chained(Spans(body, delim, cursor))
    decreases |body| - cursor
  {
    var start := IndexOf(body, delim, cursor);
    if start != -1 {
      var next := IndexOf(body, delim, start + |delim|);
      if next != -1 {
        var rest := Spans(body, delim, next);
        SpansChain(body, delim, next);
        var sp := Spans(body, delim, cursor);
        assert sp == [Span(start, next)] + rest;
        forall k | 0 <= k < |sp| - 1
          ensures sp[k].next == sp[k + 1].start
        {
          if k > 0 {
            assert sp[k] == rest[k - 1];
          }
          assert sp[k + 1] == rest[k];
        }
      }
    }
  }

  /** No part contains the delimiter: each span ends at the first occurrence after its start. */
  lemma {:induction false} SpansHoldNoDelimiter(body: string, delim: string, cursor: nat)
    requires delim != []
    ensures HoldNoDelimiter(body, delim, Spans(body, delim, cursor))
    decreases |body| - cursor
  {
    var start := IndexOf(body, delim, cursor);
    if start != -1 {
      var next := IndexOf(body, delim, start + |delim|);
      if next != -1 {
        var rest := Spans(body, delim, next);
        SpansHoldNoDelimiter(body, delim, next);
        var sp := Spans(body, delim, cursor);
        assert sp == [Span(start, next)] + rest;
        forall k, p | 0 <= k < |sp| && sp[k].start + |delim| <= p < sp[k].next
          ensures !OccursAt(body, delim, p)
        {
          if k > 0 {
            assert sp[k] == rest[k - 1];
          }
        }
      }
    }
  }

  /** A split that finds no span at an occurrence of the delimiter finds no further occurrence. */
  lemma NoSpanAtDelimiter(body: string, delim: string, at: nat)
    requires delim != [] && OccursAt(body, delim, at) && Spans(body, delim, at) == []
    ensures IndexOf(body, delim, at + |delim|) == -1
  {
    assert IndexOf(body, delim, at) == at;
  }

  /** Where the last span ends. */
  function LastNext(sp: seq<Span>): nat
    requires sp != []
  {
    sp[|sp| - 1].next
  }

  /** The split stops only when no delimiter follows the last one it used. */
  lemma {:induction false} SpansStopAtLastDelimiter(body: string, delim: string, cursor: nat)
    requires delim != []
    ensures Spans(body, delim, cursor) != [] ==> IndexOf(body, delim, LastNext(Spans(body, delim, cursor)) + |delim|) == -1
    decreases |body| - cursor
  {
    var sp := Spans(body, delim, cursor);
    if sp != [] {
      var start := IndexOf(body, delim, cursor);
      var next := IndexOf(body, delim, start + |delim|);
      assert start != -1 && next != -1;
      SpansStopAtLastDelimiter(body, delim, next);
      var rest := Spans(body, delim, next);
      assert sp == [Span(start, next)] + rest;
      if rest == [] {
        NoSpanAtDelimiter(body, delim, next);
        assert LastNext(sp) == next;
      } else {
        assert LastNext(sp) == LastNext(rest);
      }
    }
  }

  lemma SpansUnfold(body: string, delim: string, cursor: nat, start: nat, next: nat)
    requires delim != []
    requires start == IndexOf(body, delim, cursor) && next == IndexOf(body, delim, start + |delim|)
    ensures Spans(body, delim, cursor) == [Span(start, next)] + Spans(body, delim, next)
  {
  }

  lemma PartsOfSnoc(body: string, delim: string, sp: seq<Span>, start: nat, next: nat)
    requires SpansIn(body, delim, sp) && start + |delim| <= next <= |body|
    ensures SpansIn(body, delim, sp + [Span(start, next)])
    ensures PartsOf(body, delim, sp + [Span(start, next)]) == PartsOf(body, delim, sp) + [body[start + |delim|..next]]
  {
    var x := Span(start, next);
    var l := PartsOf(body, delim, sp + [x]);
    var r := PartsOf(body, delim, sp) + [body[start + |delim|..next]];
    assert |l| == |r|;
    forall k | 0 <= k < |l| ensures l[k] == r[k] {
      if k < |sp| {
        assert (sp + [x])[k] == sp[k];
      }
    }
  }

  lemma ConcatSnoc<T>(a: seq<T>, x: T, b: seq<T>)
    ensures a + ([x] + b) == (a + [x]) + b
  {
  }

  /** The split loop of `parseMultipartFormData`. */
  method SplitParts(body: string, delim: string) returns (parts: seq<string>)
    requires delim != []
    ensures parts == Segments(body, delim)
  {
    ghost var visited: seq<Span> := [];
    parts := [];
    var cursor: nat := 0;
    while true
      invariant SpansIn(body, delim, visited)
      invariant visited + Spans(body, delim, cursor) == Spans(body, delim, 0)
      invariant parts == PartsOf(body, delim, visited)
      decreases |body| - cursor
    {
      var start := IndexOf(body, delim, cursor);
      if start == -1 {
        assert visited + [] == visited;
        break;
      }
      var next := IndexOf(body, delim, start + |delim|);
      if next == -1 {
        assert visited + [] == visited;
        break;
      }
      var part := body[start + |delim|..next];
      SpansUnfold(body, delim, cursor, start, next);
      ConcatSnoc(visited, Span(start, next), Spans(body, delim, next));
      PartsOfSnoc(body, delim, visited, start, next);
      visited := visited + [Span(start, next)];
      parts := parts + [part];
      cursor := next;
    }
  }

  datatype UploadedFile = UploadedFile(filename: string, contentType: string, content: string)

  datatype ParsedMultipart = ParsedMultipart(fields: map<string, string>, file: Option<UploadedFile>)

  /** What one part contributes: nothing, a text field, or the file. */
  datatype PartValue = Skip | Field(name: string, value: string) | File(file: UploadedFile)

  /** The first header line whose lower-cased text starts with `content-disposition:`. */
  function DispositionLine(lines: seq<string>): (r: Option<string>)
    ensures r.Some? ==> r.value in lines && StartsWith(ToLowerAscii(r.value), "content-disposition:")
    ensures r.None? ==> forall l :: l in lines ==> !StartsWith(ToLowerAscii(l), "content-disposition:")
  {
    if lines == [] then None
    else if StartsWith(ToLowerAscii(lines[0]), "content-disposition:") then Some(lines[0])
    else DispositionLine(lines[1..])
  }

  const HeaderEnd: string := "\r\n\r\n"
  const DefaultFilename: string := "upload.bin"
  const DefaultContentType: string := "application/octet-stream"

  function Max(a: int, b: int): int {
    if a < b then b else a
  }

  /** What follows the blank line that ends the headers, less the two characters before the next delimiter. */
  function PartBody(part: string, headerEnd: nat): (content: string)
    requires headerEnd + 4 <= |part|
    ensures |content| == Max(0, |part| - headerEnd - 6)
  {
    part[headerEnd + 4..Max(headerEnd + 4, |part| - 2)]
  }

  /** The declared filename, or "upload.bin" when it is empty. */
  function FilenameOrDefault(filename: string): (f: string)
    ensures f != ""
    ensures filename != "" ==> f == filename
  {
    if filename != "" then filename else DefaultFilename
  }

  /** The trimmed Content-Type of the part's headers, or "application/octet-stream" when there is none or it is blank. */
  function PartContentType(headerText: string): (t: string)
    ensures t != ""
    ensures FirstMatch(ContentTypeLine, headerText).Some? && Trim(FirstMatch(ContentTypeLine, headerText).value) != "" ==>
      t == Trim(FirstMatch(ContentTypeLine, headerText).value)
    ensures FirstMatch(ContentTypeLine, headerText).None? || Trim(FirstMatch(ContentTypeLine, headerText).value) == "" ==>
      t == DefaultContentType
  {
    var declared := match FirstMatch(ContentTypeLine, headerText) case None => "" case Some(c) => Trim(c);
    if declared != "" then declared else DefaultContentType
  }

  /**
   * A part whose headers are `headerText`. It is skipped when no header line
   * is a Content-Disposition or that line has no `name="…"`. Otherwise it is
   * the file when the disposition has a `filename="…"` (default name and
   * type filled in), and a text field of that name, holding the trimmed
   * content, when it has not.
   */
  function ReadPart(headerText: string, content: string): (v: PartValue)
    ensures var d := DispositionLine(SplitLines(headerText));
      v.Skip? <==> d.None? || FirstMatch(NameParam, d.value).None?
    ensures var d := DispositionLine(SplitLines(headerText));
      v.Field? ==>
        && d.Some? && FirstMatch(NameParam, d.value) == Some(v.name) && FirstMatch(FilenameParam, d.value).None?
        && v.value == Trim(content) && v.value == Trim(v.value)
    ensures var d := DispositionLine(SplitLines(headerText));
      v.File? ==>
        && d.Some? && FirstMatch(NameParam, d.value).Some? && FirstMatch(FilenameParam, d.value).Some?
        && v.file.filename == FilenameOrDefault(FirstMatch(FilenameParam, d.value).value)
        && v.file.contentType == PartContentType(headerText)
        && v.file.content == content
    ensures v.File? ==> v.file.filename != "" && v.file.contentType != ""
  {
    match DispositionLine(SplitLines(headerText))
    case None => Skip
    case Some(disposition) =>
      match FirstMatch(NameParam, disposition)
      case None => Skip
      case Some(fieldName) =>
        match FirstMatch(FilenameParam, disposition)
        case Some(filename) =>
          File(UploadedFile(FilenameOrDefault(filename), PartContentType(headerText), content))
        case None =>
          TrimIdempotent(content);
          Field(fieldName, Trim(content))
  }

  /** The part with the CRLF that follows the delimiter removed. */
  function Unprefixed(raw: string): (part: string)
    ensures part == raw || (StartsWith(raw, CRLF) && part == raw[2..])
  {
    if StartsWith(raw, CRLF) then raw[2..] else raw
  }

  /**
   * The reading of one raw part, from the body of the `for (const rawPart of parts)`
   * loop. The content of a file part is what follows the first blank line,
   * less the CRLF that precedes the next delimiter.
   */
  function ParsePart(raw: string): (v: PartValue)
    ensures var part := Unprefixed(raw);
      part == [] || part == "--\r\n" || IndexOf(part, HeaderEnd, 0) == -1 ==> v.Skip?
    ensures var part := Unprefixed(raw);
      var headerEnd := IndexOf(part, HeaderEnd, 0);
      !(part == [] || part == "--\r\n" || headerEnd == -1) ==>
        && headerEnd + 4 <= |part|
        && v == ReadPart(part[..headerEnd], PartBody(part, headerEnd))
    ensures v.File? ==> v.file.filename != "" && v.file.contentType != ""
    ensures v.File? ==>
      var part := Unprefixed(raw);
      var headerEnd := IndexOf(part, HeaderEnd, 0);
      && 0 <= headerEnd && headerEnd + 4 <= |part|
      && v.file.content == PartBody(part, headerEnd)
      && |v.file.content| == Max(0, |part| - headerEnd - 6)
    ensures v.Field? ==>
      var part := Unprefixed(raw);
      var headerEnd := IndexOf(part, HeaderEnd, 0);
      && 0 <= headerEnd && headerEnd + 4 <= |part|
      && v.value == Trim(PartBody(part, headerEnd))
    ensures v.Field? ==> v.value == Trim(v.value)
  {
    var part := Unprefixed(raw);
    if part == [] || part == "--\r\n" then Skip
    else
      var headerEnd := IndexOf(part, HeaderEnd, 0);
      if headerEnd == -1 then Skip
      else ReadPart(part[..headerEnd], PartBody(part, headerEnd))
  }

  /**
   * `fields[name] = value` on a plain object: assigning a string to
   * `__proto__` does not create a field.
   */
  const ProtoKey: string := "__proto__"

  function ApplyPart(parsed: ParsedMultipart, v: PartValue): ParsedMultipart {
    match v
    case Skip => parsed
    case Field(name, value) => if name == ProtoKey then parsed else parsed.(fields := parsed.fields[name := value])
    case File(f) => parsed.(file := Some(f))
  }

  /** What each part contributes, in order. */
  function PartValues(parts: seq<string>): (vs: seq<PartValue>)
    ensures |vs| == |parts|
    ensures forall k :: 0 <= k < |parts| ==> vs[k] == ParsePart(parts[k])
  {
    seq(|parts|, k requires 0 <= k < |parts| => ParsePart(parts[k]))
  }

  /** The parsed form after the part values, in order. */
  function ApplyAll(vs: seq<PartValue>): ParsedMultipart
    decreases |vs|
  {
    if vs == [] then ParsedMultipart(map[], None)
    else ApplyPart(ApplyAll(vs[..|vs| - 1]), vs[|vs| - 1])
  }

  /** `parseMultipartFormData(body, boundary)` as a value. */
  function ParseMultipart(body: string, boundary: string): ParsedMultipart {
    ApplyAll(PartValues(Segments(body, "--" + boundary)))
  }

  /** `parseMultipartFormData`: split the body, then read each part in order. */
  method ParseMultipartFormData(body: string, boundary: string) returns (parsed: ParsedMultipart)
    ensures parsed == ParseMultipart(body, boundary)
  {
    var parts := SplitParts(body, "--" + boundary);
    ghost var vs := PartValues(parts);
    var fields: map<string, string> := map[];
    var file: Option<UploadedFile> := None;
    for i := 0 to |parts|
      invariant ParsedMultipart(fields, file) == ApplyAll(vs[..i])
    {
      assert vs[..i + 1][..i] == vs[..i];
      var v := ParsePart(parts[i]);
      assert v == vs[i];
      match v {
        case Skip =>
        case Field(name, value) =>
          if name != ProtoKey {
            fields := fields[name := value];
          }
        case File(f) =>
          file := Some(f);
      }
    }
    assert vs[..|parts|] == vs;
    parsed := ParsedMultipart(fields, file);
  }

  /** There is a file exactly when some part has a `filename`. */
  lemma {:induction false} FileFromSomePart(vs: seq<PartValue>)
    ensures ApplyAll(vs).file.None? <==> forall k :: 0 <= k < |vs| ==> !vs[k].File?
    decreases |vs|
  {
    if vs != [] {
      var n := |vs| - 1;
      FileFromSomePart(vs[..n]);
      assert forall k :: 0 <= k < n ==> vs[..n][k] == vs[k];
    }
  }

  /** The file is the one of the last part that has a `filename`. */
  lemma {:induction false} LastFileWins(vs: seq<PartValue>)
    ensures var file := ApplyAll(vs).file;
      file.Some? ==> exists k :: 0 <= k < |vs| && vs[k] == File(file.value) && forall j :: k < j < |vs| ==> !vs[j].File?
    decreases |vs|
  {
    if vs != [] {
      var n := |vs| - 1;
      var prefix := vs[..n];
      var file := ApplyAll(vs).file;
      if vs[n].File? {
        assert vs[n] == File(file.value);
      } else if file.Some? {
        LastFileWins(prefix);
        assert ApplyAll(prefix).file == file;
        var k :| 0 <= k < n && prefix[k] == File(file.value) && forall j :: k < j < n ==> !prefix[j].File?;
        assert vs[k] == File(file.value);
        assert forall j :: k < j < |vs| ==> !vs[j].File? by {
          assert forall j :: k < j < n ==> prefix[j] == vs[j];
        }
      }
    }
  }

  /** A part value that sets the field `name`. */
  predicate Names(v: PartValue, name: string) {
    v.Field? && v.name == name
  }

  /** Only names of text parts (other than `__proto__`) are fields. */
  lemma {:induction false} FieldsAreNamed(vs: seq<PartValue>, name: string)
    ensures name in ApplyAll(vs).fields <==> name != ProtoKey && exists k :: 0 <= k < |vs| && Names(vs[k], name)
    decreases |vs|
  {
    if vs != [] {
      var n := |vs| - 1;
      var prefix := vs[..n];
      FieldsAreNamed(prefix, name);
      assert forall k :: 0 <= k < n ==> prefix[k] == vs[k];
      if !Names(vs[n], name) && name != ProtoKey && exists k :: 0 <= k < |vs| && Names(vs[k], name) {
        var k :| 0 <= k < |vs| && Names(vs[k], name);
        assert k < n && Names(prefix[k], name);
      }
    }
  }

  /** A field holds the value of the last text part with its name. */
  lemma {:induction false} LastFieldWins(vs: seq<PartValue>, name: string)
    ensures var fields := ApplyAll(vs).fields;
      name in fields ==> exists k :: 0 <= k < |vs| && vs[k] == Field(name, fields[name])
                                     && forall j :: k < j < |vs| ==> !Names(vs[j], name)
    decreases |vs|
  {
    if name == ProtoKey {
      FieldsAreNamed(vs, name);
    } else if vs != [] {
      var n := |vs| - 1;
      var prefix := vs[..n];
      LastFieldWins(prefix, name);
      var fields := ApplyAll(vs).fields;
      if !Names(vs[n], name) && name in fields {
        assert name in ApplyAll(prefix).fields && fields[name] == ApplyAll(prefix).fields[name];
        var k :| 0 <= k < n && prefix[k] == Field(name, fields[name]) && forall j :: k < j < n ==> !Names(prefix[j], name);
        assert vs[k] == Field(name, fields[name]);
        assert forall j :: k < j < |vs| ==> !Names(vs[j], name) by {
          assert forall j :: k < j < n ==> prefix[j] == vs[j];
        }
      } else if Names(vs[n], name) && name in fields {
        assert vs[n] == Field(name, fields[name]);
      }
    }
  }
}
