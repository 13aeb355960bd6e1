/**
 * The three helpers of src/ssec/common.py: the response validator, the line
 * framer and the event-stream field parser, together with the mutable
 * configuration record the parser writes into.
 */
module Common {
  import opened Constants
  import opened Events

  // ---------------------------------------------------------------------
  // Text helpers
  // ---------------------------------------------------------------------

  /** Index of the first character of `s` that lies in `cs`, or |s| when there is none. */
  function FirstOf(s: string, cs: set<char>): (i: nat)
    ensures i <= |s|
    ensures forall k :: 0 <= k < i ==> s[k] !in cs
    ensures i < |s| ==> s[i] in cs
  {
    if s == [] || s[0] in cs then 0 else 1 + FirstOf(s[1..], cs)
  }

  /** `s` with every trailing character that lies in `cs` removed (Python's `str.rstrip(cs)`). */
  function TrimEnd(s: string, cs: set<char>): (r: string)
    ensures r <= s
    ensures r == [] || r[|r| - 1] !in cs
    ensures forall k :: |r| <= k < |s| ==> s[k] in cs
  {
    if s != [] && s[|s| - 1] in cs then TrimEnd(s[..|s| - 1], cs) else s
  }

  /** Python's `str.removeprefix`. */
  function RemovePrefix(s: string, prefix: string): (r: string)
    ensures prefix <= s ==> prefix + r == s
    ensures !(prefix <= s) ==> r == s
  {
    if prefix <= s then s[|prefix|..] else s
  }

  /** Python's `str.partition` on a one-character separator. */
  function Partition(s: string, sep: char): (r: (string, string, string))
    ensures r.0 + r.1 + r.2 == s
    ensures sep !in r.0
    ensures sep in s ==> r.1 == [sep]
    ensures sep !in s ==> r.1 == [] && r.2 == []
  {
    var i := FirstOf(s, {sep});
    if i == |s| then (s, "", "") else (s[..i], [sep], s[i + 1..])
  }

  /** Python's substring test `part in s`. */
  predicate Contains(s: string, part: string) {
    exists i | 0 <= i <= |s| - |part| :: part <= s[i..]
  }

  // ---------------------------------------------------------------------
  // check_response
  // ---------------------------------------------------------------------

  /** Why a response was refused: a ValueError for the status, a TypeError for the content type. */
  datatype ResponseError =
    | UnexpectedStatus(code: int)
    | InvalidContentType(contentType: Option<string>)

  /**
   * Validates a response by its status code and its content-type header (None
   * when the header is absent). None means the response is accepted. The status
   * is checked first; a missing header fails the substring test as well.
   */
  function CheckResponse(status: int, contentType: Option<string>): (r: Option<ResponseError>)
    ensures r == None <==> status == StatusOk && contentType.Some? && Contains(contentType.value, SseContentType)
    ensures status != StatusOk ==> r == Some(UnexpectedStatus(status))
    ensures status == StatusOk && r != None ==> r == Some(InvalidContentType(contentType))
  {
    if status != StatusOk then Some(UnexpectedStatus(status))
    else if contentType.None? || !Contains(contentType.value, SseContentType) then Some(InvalidContentType(contentType))
    else None
  }

  // ---------------------------------------------------------------------
  // extract_lines
  // ---------------------------------------------------------------------

  const LineBreaks: set<char> := {'\r', '\n'}

  /** The text holds neither a carriage return nor a line feed. */
  predicate Clean(s: string) {
    forall k :: 0 <= k < |s| ==> s[k] !in LineBreaks
  }

  /**
   * Characters other than CR and LF that Python's `str.splitlines` also treats
   * as line boundaries: VT, FF, FS, GS, RS, NEL, LINE SEPARATOR, PARAGRAPH SEPARATOR.
   */
  const OtherBoundaries: set<char> := {'\U{B}', '\U{C}', '\U{1C}', '\U{1D}', '\U{1E}', '\U{85}', '\U{2028}', '\U{2029}'}

  /** The text splits into lines only at CR and LF. */
  predicate SplitsOnlyAtCrLf(s: string) {
    forall k :: 0 <= k < |s| ==> s[k] !in OtherBoundaries
  }

  datatype Terminator = CRLF | LF | CR

  function TerminatorText(t: Terminator): string {
    match t
    case CRLF => "\r\n"
    case LF => "\n"
    case CR => "\r"
  }

  /** A complete line: its text and the terminator that ended it. */
  datatype Line = Line(content: string, terminator: Terminator)

  /** The complete lines of a buffer, in order, and its unterminated remainder. */
  datatype Framing = Framing(lines: seq<Line>, rest: string)

  /** The terminator that starts at index i; CR followed by LF is one terminator. */
  function TerminatorAt(s: string, i: nat): (t: Terminator)
    requires i < |s| && s[i] in LineBreaks
    ensures i + |TerminatorText(t)| <= |s|
  {
    if s[i] == '\n' then LF
    else if i + 1 < |s| && s[i + 1] == '\n' then CRLF
    else CR
  }

  /** The terminator found at i is the text at i, and a lone CR is not followed by LF. */
  lemma TerminatorAtText(s: string, i: nat)
    requires i < |s| && s[i] in LineBreaks
    ensures s[i..i + |TerminatorText(TerminatorAt(s, i))|] == TerminatorText(TerminatorAt(s, i))
    ensures TerminatorAt(s, i) == CR ==> i + 1 == |s| || s[i + 1] != '\n'
  {
  }

  /** How `str.splitlines(keepends=True)` cuts a buffer that holds no other boundary characters. */
  function Frame(s: string): (f: Framing)
    decreases |s|
  {
    var i := FirstOf(s, LineBreaks);
    if i == |s| then Framing([], s)
    else
      var t := TerminatorAt(s, i);
      var tail := Frame(s[i + |TerminatorText(t)|..]);
      Framing([Line(s[..i], t)] + tail.lines, tail.rest)
  }

  /** Re-joins every line with its terminator and appends the remainder. */
  function Unframe(f: Framing): string
    decreases |f.lines|
  {
    if f.lines == [] then f.rest
    else f.lines[0].content + TerminatorText(f.lines[0].terminator) + Unframe(Framing(f.lines[1..], f.rest))
  }

  /** The texts of the lines, without their terminators. */
  function Contents(lines: seq<Line>): (r: seq<string>)
    ensures |r| == |lines|
  {
    if lines == [] then [] else [lines[0].content] + Contents(lines[1..])
  }

  /** No line and no remainder holds a line break. */
  predicate CleanFraming(f: Framing) {
    (forall k :: 0 <= k < |f.lines| ==> Clean(f.lines[k].content)) && Clean(f.rest)
  }

  /** No CR-terminated line is followed by an empty LF-terminated one (the two would read back as one CRLF). */
  predicate NoSplitCrLf(f: Framing) {
    forall k :: 0 <= k < |f.lines| - 1 && f.lines[k].terminator == CR ==>
      !(f.lines[k + 1].content == "" && f.lines[k + 1].terminator == LF)
  }

  /** Re-joining the framed lines with their terminators, followed by the remainder, gives the buffer back. */
  lemma {:induction false} FrameRoundTrip(s: string)
    ensures Unframe(Frame(s)) == s
    decreases |s|
  {
    var i := FirstOf(s, LineBreaks);
    if i < |s| {
      var t := TerminatorAt(s, i);
      var j := i + |TerminatorText(t)|;
      var tail := Frame(s[j..]);
      FrameRoundTrip(s[j..]);
      var f := Frame(s);
      TerminatorAtText(s, i);
      SplitAt(s, i, j);
      assert f.lines[1..] == tail.lines;
      calc {
        Unframe(f);
        s[..i] + TerminatorText(t) + Unframe(Framing(tail.lines, tail.rest));
        s[..i] + s[i..j] + s[j..];
      }
    }
  }

  lemma SplitAt(s: string, i: nat, j: nat)
    requires i <= j <= |s|
    ensures s == s[..i] + s[i..j] + s[j..]
  {
  }

  /** One unfolding of Frame at its first terminator. */
  lemma FrameStep(s: string, i: nat, t: Terminator)
    requires i == FirstOf(s, LineBreaks) && i < |s| && t == TerminatorAt(s, i)
    ensures var tail := Frame(s[i + |TerminatorText(t)|..]); Frame(s) == Framing([Line(s[..i], t)] + tail.lines, tail.rest)
  {
    assert |TerminatorText(t)| == if t == CRLF then 2 else 1;
  }

  /** Neither a framed line nor the remainder holds a CR or an LF. */
  lemma {:induction false} FrameIsClean(s: string)
    ensures CleanFraming(Frame(s))
    decreases |s|
  {
    var i := FirstOf(s, LineBreaks);
    if i < |s| {
      var t := TerminatorAt(s, i);
      var j := i + |TerminatorText(t)|;
      var tail := Frame(s[j..]);
      FrameIsClean(s[j..]);
      FrameStep(s, i, t);
      var f := Frame(s);
      assert Clean(s[..i]);
      forall k | 0 <= k < |f.lines| ensures Clean(f.lines[k].content) {
        if k > 0 { assert f.lines[k] == tail.lines[k - 1]; }
      }
    } else {
      assert Frame(s) == Framing([], s);
    }
  }

  /** The first break of a clean text followed by a terminator is where the terminator starts. */
  lemma FirstBreakAfterClean(c: string, x: string)
    requires Clean(c) && x != [] && x[0] in LineBreaks
    ensures FirstOf(c + x, LineBreaks) == |c|
  {
    var i := FirstOf(c + x, LineBreaks);
    assert (c + x)[|c|] == x[0];
  }

  /** A text that starts with neither a line feed nor anything at all: the first character is not LF. */
  predicate StartsWithoutLf(s: string) {
    s == [] || s[0] != '\n'
  }

  lemma {:induction false} UnframeStart(f: Framing)
    requires CleanFraming(f)
    requires f.lines != [] ==> !(f.lines[0].content == "" && f.lines[0].terminator == LF)
    ensures StartsWithoutLf(Unframe(f))
  {
    if f.lines != [] {
      var c := f.lines[0].content;
      var u := Unframe(f);
      assert u == c + (TerminatorText(f.lines[0].terminator) + Unframe(Framing(f.lines[1..], f.rest)));
      if c != [] { assert u[0] == c[0]; assert Clean(c); }
    } else {
      assert Clean(f.rest);
    }
  }

  /** A clean text followed by a terminator frames as that line followed by the framing of what comes after. */
  lemma FrameCons(c: string, t: Terminator, x: string)
    requires Clean(c)
    requires t == CR ==> StartsWithoutLf(x)
    ensures Frame(c + TerminatorText(t) + x) == Framing([Line(c, t)] + Frame(x).lines, Frame(x).rest)
  {
    var tt := TerminatorText(t);
    var s := c + tt + x;
    assert s == c + (tt + x);
    FirstBreakAfterClean(c, tt + x);
    assert s[|c|] == tt[0];
    assert s[..|c|] == c;
    if t == CR {
      if x != [] { assert s[|c| + 1] == x[0]; }
    } else if t == CRLF {
      assert s[|c| + 1] == '\n';
    }
    assert TerminatorAt(s, |c|) == t;
    assert s[|c| + |tt|..] == x;
    FrameStep(s, |c|, t);
  }

  /**
   * Framing undoes re-joining: a clean framing in which no CR line is followed by
   * an empty LF line is exactly what the framer reads back from its text.
   */
  lemma {:induction false} FrameUnframe(f: Framing)
    requires CleanFraming(f) && NoSplitCrLf(f)
    ensures Frame(Unframe(f)) == f
    decreases |f.lines|
  {
    if f.lines == [] {
      assert FirstOf(f.rest, LineBreaks) == |f.rest|;
    } else {
      var c, t := f.lines[0].content, f.lines[0].terminator;
      var g := Framing(f.lines[1..], f.rest);
      assert f.lines == [Line(c, t)] + g.lines;
      assert CleanFraming(g) by {
        forall k | 0 <= k < |g.lines| ensures Clean(g.lines[k].content) { assert g.lines[k] == f.lines[k + 1]; }
      }
      assert NoSplitCrLf(g) by {
        forall k | 0 <= k < |g.lines| - 1 && g.lines[k].terminator == CR
          ensures !(g.lines[k + 1].content == "" && g.lines[k + 1].terminator == LF)
        {
          assert g.lines[k] == f.lines[k + 1] && g.lines[k + 1] == f.lines[k + 2];
        }
      }
      FrameUnframe(g);
      if t == CR {
        if g.lines != [] { assert f.lines[1] == g.lines[0]; }
        UnframeStart(g);
      }
      assert Clean(c);
      FrameCons(c, t, Unframe(g));
    }
  }

  /** `\r\n` ends one line, not two. */
  lemma CrLfIsOneTerminator(c: string, x: string)
    requires Clean(c)
    ensures Frame(c + "\r\n" + x) == Framing([Line(c, CRLF)] + Frame(x).lines, Frame(x).rest)
  {
    FrameCons(c, CRLF, x);
  }

  /** A carriage return at the very end of the buffer already completes a line. */
  lemma TrailingCrCompletesLine(c: string)
    requires Clean(c)
    ensures Frame(c + "\r") == Framing([Line(c, CR)], "")
  {
    FrameCons(c, CR, "");
    assert c + "\r" + "" == c + "\r";
    assert Frame("") == Framing([], "");
  }

  lemma SuffixOfSuffix(s: string, j: nat, r: string)
    requires j <= |s| && |r| <= |s| - j && r == s[j..][|s| - j - |r|..]
    ensures r == s[|s| - |r|..]
  {
    assert s[j..][|s| - j - |r|..] == s[|s| - |r|..];
  }

  /** The remainder is a suffix of the buffer, so it keeps the buffer's absence of other boundaries. */
  lemma {:induction false} FrameRestIsSuffix(s: string)
    ensures |Frame(s).rest| <= |s| && Frame(s).rest == s[|s| - |Frame(s).rest|..]
    decreases |s|
  {
    var i := FirstOf(s, LineBreaks);
    if i < |s| {
      var t := TerminatorAt(s, i);
      var j := i + |TerminatorText(t)|;
      var r := Frame(s[j..]).rest;
      assert Frame(s).rest == r by {
        FrameStep(s, i, t);
      }
      FrameRestIsSuffix(s[j..]);
      SuffixOfSuffix(s, j, r);
    } else {
      assert Frame(s).rest == s;
    }
  }

  /** Stripping the trailing CR/LF run of a terminated clean line leaves its text. */
  lemma TrimTerminator(c: string, t: Terminator)
    requires Clean(c)
    ensures TrimEnd(c + TerminatorText(t), LineBreaks) == c
  {
    assert c != [] ==> c[|c| - 1] !in LineBreaks;
    assert TrimEnd(c, LineBreaks) == c;
    match t
    case LF => assert (c + "\n")[..|c|] == c;
    case CR => assert (c + "\r")[..|c|] == c;
    case CRLF =>
      assert (c + "\r\n")[..|c| + 1] == c + "\r";
      assert (c + "\r")[..|c|] == c;
  }

  lemma ContentsCons(line: Line, lines: seq<Line>)
    ensures Contents([line] + lines) == [line.content] + Contents(lines)
  {
    assert ([line] + lines)[1..] == lines;
  }

  /** The line that the framer's loop cuts off: the text before the first break and its terminator. */
  lemma CutLine(rest: string, i: nat, end: nat)
    requires i == FirstOf(rest, LineBreaks) && i < |rest|
    requires end == if rest[i] == '\r' && i + 1 < |rest| && rest[i + 1] == '\n' then i + 2 else i + 1
    ensures end == i + |TerminatorText(TerminatorAt(rest, i))| && end <= |rest|
    ensures rest[..end] == rest[..i] + TerminatorText(TerminatorAt(rest, i))
    ensures Clean(rest[..i])
  {
    var t := TerminatorAt(rest, i);
    TerminatorAtText(rest, i);
    assert rest[..end] == rest[..i] + rest[i..end];
  }

  /** Removing one terminated line from the front of the buffer, as the framer's loop does. */
  lemma ExtractStep(rest: string, i: nat, end: nat)
    requires i == FirstOf(rest, LineBreaks) && i < |rest|
    requires end == if rest[i] == '\r' && i + 1 < |rest| && rest[i + 1] == '\n' then i + 2 else i + 1
    ensures end <= |rest| && rest[..end] <= rest
    ensures Contents(Frame(rest).lines) == [TrimEnd(rest[..end], LineBreaks)] + Contents(Frame(RemovePrefix(rest, rest[..end])).lines)
    ensures Frame(rest).rest == Frame(RemovePrefix(rest, rest[..end])).rest
  {
    var t := TerminatorAt(rest, i);
    var c := rest[..i];
    CutLine(rest, i, end);
    TrimTerminator(c, t);
    assert RemovePrefix(rest, rest[..end]) == rest[end..];
    FrameStep(rest, i, t);
    ContentsCons(Line(c, t), Frame(rest[end..]).lines);
  }

  /** The framer loop's invariant survives the removal of one line. */
  lemma ExtractAdvance(buffer: string, lines: seq<string>, rest: string, i: nat, end: nat)
    requires i == FirstOf(rest, LineBreaks) && i < |rest|
    requires end == if rest[i] == '\r' && i + 1 < |rest| && rest[i + 1] == '\n' then i + 2 else i + 1
    requires Contents(Frame(buffer).lines) == lines + Contents(Frame(rest).lines)
    requires Frame(buffer).rest == Frame(rest).rest
    ensures end <= |rest| && rest[..end] <= rest && |RemovePrefix(rest, rest[..end])| < |rest|
    ensures Contents(Frame(buffer).lines)
      == (lines + [TrimEnd(rest[..end], LineBreaks)]) + Contents(Frame(RemovePrefix(rest, rest[..end])).lines)
    ensures Frame(buffer).rest == Frame(RemovePrefix(rest, rest[..end])).rest
  {
    ExtractStep(rest, i, end);
    var later := Contents(Frame(RemovePrefix(rest, rest[..end])).lines);
    assert lines + ([TrimEnd(rest[..end], LineBreaks)] + later) == (lines + [TrimEnd(rest[..end], LineBreaks)]) + later;
  }

  /**
   * Splits the buffer into its complete lines, terminators stripped, and the
   * unterminated remainder; the caller feeds the remainder back with the next chunk.
   */
  method ExtractLines(buffer: string) returns (lines: seq<string>, rest: string)
    requires SplitsOnlyAtCrLf(buffer)
    ensures lines == Contents(Frame(buffer).lines)
    ensures rest == Frame(buffer).rest
  {
    lines, rest := [], buffer;
    var i := FindLineBreak(rest);
    while i < |rest|
      invariant i == FirstOf(rest, LineBreaks)
      invariant Contents(Frame(buffer).lines) == lines + Contents(Frame(rest).lines)
      invariant Frame(buffer).rest == Frame(rest).rest
      decreases |rest|
    {
      var end := if rest[i] == '\r' && i + 1 < |rest| && rest[i + 1] == '\n' then i + 2 else i + 1;
      var line := rest[..end];
      ExtractAdvance(buffer, lines, rest, i, end);
      lines := lines + [TrimEnd(line, LineBreaks)];
      rest := RemovePrefix(rest, line);
      i := FindLineBreak(rest);
    }
    assert Frame(rest) == Framing([], rest);
  }

  /** Scans for the first CR or LF; |s| when there is none. */
  method FindLineBreak(s: string) returns (i: nat)
    ensures i == FirstOf(s, LineBreaks)
  {
    i := 0;
    while i < |s| && s[i] != '\r' && s[i] != '\n'
      invariant i <= |s|
      invariant forall k :: 0 <= k < i ==> s[k] !in LineBreaks
    {
      i := i + 1;
    }
    assert i < |s| ==> s[i] in LineBreaks;
    ghost var j := FirstOf(s, LineBreaks);
    assert j <= i;
  }

  // ---------------------------------------------------------------------
  // parse_events
  // ---------------------------------------------------------------------

  /** The field name and value of a non-comment line: split at the first ':', one leading space dropped. */
  function FieldOf(line: string): (f: (string, string))
    ensures Delimiter !in f.0
    ensures Delimiter !in line ==> f == (line, "")
    ensures Delimiter in line ==>
      line == f.0 + [Delimiter] + " " + f.1 || (line == f.0 + [Delimiter] + f.1 && (f.1 == [] || f.1[0] != ' '))
  {
    var (name, _, value) := Partition(line, Delimiter);
    (name, RemovePrefix(value, " "))
  }

  /** Non-empty and made only of the ASCII digits 0-9. */
  predicate IsAsciiDigits(v: string) {
    |v| > 0 && AllDigits(v)
  }

  predicate AllDigits(v: string) {
    forall k :: 0 <= k < |v| ==> '0' <= v[k] <= '9'
  }

  /** The base-ten value of a digit string. */
  function DecimalValue(v: string): nat
    requires AllDigits(v)
  {
    if v == [] then 0 else 10 * DecimalValue(v[..|v| - 1]) + (v[|v| - 1] as int - '0' as int)
  }

  /** The shortest base-ten spelling of n, the inverse of DecimalValue. */
  function DecimalString(n: nat): (s: string)
    ensures IsAsciiDigits(s)
  {
    if n < 10 then [('0' as int + n) as char] else DecimalString(n / 10) + [('0' as int + n % 10) as char]
  }

  lemma {:induction false} DecimalRoundTrip(n: nat)
    ensures DecimalValue(DecimalString(n)) == n
  {
    var s := DecimalString(n);
    if n < 10 {
      assert s[..0] == [];
    } else {
      assert s[..|s| - 1] == DecimalString(n / 10);
      DecimalRoundTrip(n / 10);
    }
  }

  /** The parser's accumulators and the reconnection fields it writes, plus the events dispatched so far. */
  datatype Parsed = Parsed(
    events: seq<Event>,
    eventType: string,
    eventData: string,
    lastEventId: string,
    reconnectionTime: Option<nat>)

  /** The state at the start of every call: empty accumulators, no events. */
  function Begin(lastEventId: string, reconnectionTime: Option<nat>): Parsed {
    Parsed([], "", "", lastEventId, reconnectionTime)
  }

  /**
   * One line of the state machine. A blank line dispatches; the defaulted type
   * and the stripped data are written back to the accumulators, which are not
   * otherwise reset.
   */
  function Step(p: Parsed, line: string): Parsed {
    if line == [] then
      var eventType := if p.eventType == [] then DefaultType else p.eventType;
      var eventData := TrimEnd(p.eventData, {'\n'});
      p.(events := p.events + [Event(eventType, Some(eventData))], eventType := eventType, eventData := eventData)
    else if line[0] == Delimiter then p
    else
      var (name, value) := FieldOf(line);
      if name == "event" then p.(eventType := value)
      else if name == "data" then p.(eventData := p.eventData + value + "\n")
      else if name == "id" then p.(lastEventId := value)
      else if name == "retry" && IsAsciiDigits(value) then p.(reconnectionTime := Some(DecimalValue(value)))
      else p
  }

  /** The state after running the lines in order from `start`. */
  function Parse(lines: seq<string>, start: Parsed): Parsed
    decreases |lines|
  {
    if lines == [] then start else Step(Parse(lines[..|lines| - 1], start), lines[|lines| - 1])
  }

  lemma {:induction false} ParseAppend(a: seq<string>, b: seq<string>, start: Parsed)
    ensures Parse(a + b, start) == Parse(b, Parse(a, start))
    decreases |b|
  {
    if b == [] {
      assert a + b == a;
    } else {
      var n := |b| - 1;
      assert (a + b)[..|a + b| - 1] == a + b[..n];
      ParseAppend(a, b[..n], start);
    }
  }

  /** Number of blank lines. */
  function Blanks(lines: seq<string>): nat {
    if lines == [] then 0 else Blanks(lines[..|lines| - 1]) + (if lines[|lines| - 1] == [] then 1 else 0)
  }

  /** Exactly one event per blank line: earlier events are kept and one is added per blank line. */
  lemma {:induction false} OneEventPerBlankLine(lines: seq<string>, start: Parsed)
    ensures |Parse(lines, start).events| == |start.events| + Blanks(lines)
    ensures start.events <= Parse(lines, start).events
    decreases |lines|
  {
    if lines != [] {
      OneEventPerBlankLine(lines[..|lines| - 1], start);
    }
  }

  /** Empty or not ending in a line feed: what stripping trailing line feeds leaves. */
  predicate NoTrailingLf(s: string) {
    s == [] || s[|s| - 1] != '\n'
  }

  /** A dispatched event: a non-empty type, data present and without a trailing line feed. */
  predicate Dispatched(e: Event) {
    e.eventType != [] && e.data.Some? && NoTrailingLf(e.data.value)
  }

  /**
   * The invariant of the accumulators: every event so far is dispatched, its
   * data is a prefix of the data accumulator, and the data of earlier events is
   * a prefix of the data of later ones (the accumulator is never reset).
   */
  predicate Accumulating(p: Parsed) {
    (forall k :: 0 <= k < |p.events| ==> Dispatched(p.events[k]) && p.events[k].data.value <= p.eventData)
    && (forall i, j :: 0 <= i < j < |p.events| ==> p.events[i].data.value <= p.events[j].data.value)
  }

  lemma {:induction false} TrimKeepsPrefix(d: string, s: string)
    requires d <= s && NoTrailingLf(d)
    ensures d <= TrimEnd(s, {'\n'})
    decreases |s|
  {
    if s != [] && s[|s| - 1] == '\n' {
      assert d <= s[..|s| - 1];
      TrimKeepsPrefix(d, s[..|s| - 1]);
    }
  }

  /** A dispatch keeps the accumulation: the new event's data is the trimmed accumulator, which every earlier event's data still prefixes. */
  lemma DispatchAccumulates(p: Parsed)
    requires Accumulating(p)
    ensures Accumulating(Step(p, ""))
  {
    var q := Step(p, "");
    var d := q.eventData;
    forall k | 0 <= k < |p.events| ensures p.events[k].data.value <= d {
      TrimKeepsPrefix(p.events[k].data.value, p.eventData);
    }
    assert q.events == p.events + [Event(q.eventType, Some(d))];
    assert q.events[|p.events|] == Event(q.eventType, Some(d));
  }

  lemma StepAccumulates(p: Parsed, line: string)
    requires Accumulating(p)
    ensures Accumulating(Step(p, line))
  {
    if line == [] {
      DispatchAccumulates(p);
    } else if line[0] == Delimiter {
      assert Step(p, line) == p;
    } else {
      var f := FieldOf(line);
      var q := Step(p, line);
      if f.0 == "data" {
        assert q == p.(eventData := p.eventData + f.1 + "\n");
      } else {
        assert q.events == p.events && q.eventData == p.eventData;
      }
      ExtendAccumulating(p, q);
    }
  }

  /** Extending the data accumulator without dispatching keeps the accumulation. */
  lemma ExtendAccumulating(p: Parsed, q: Parsed)
    requires Accumulating(p) && q.events == p.events && p.eventData <= q.eventData
    ensures Accumulating(q)
  {
  }

  /**
   * Every event of a call is dispatched with a non-empty type and present data,
   * and each event's data extends the previous one's: the data accumulator is
   * not reset between events.
   */
  lemma {:induction false} EventsAccumulate(lines: seq<string>, start: Parsed)
    requires Accumulating(start)
    ensures Accumulating(Parse(lines, start))
    decreases |lines|
  {
    if lines != [] {
      EventsAccumulate(lines[..|lines| - 1], start);
      StepAccumulates(Parse(lines[..|lines| - 1], start), lines[|lines| - 1]);
    }
  }

  /** A line that changes neither the events nor any field: a comment, an unknown field or a malformed retry. */
  predicate Ignored(line: string) {
    line != [] &&
    (line[0] == Delimiter ||
     var (name, value) := FieldOf(line);
     name !in {"event", "data", "id", "retry"} || (name == "retry" && !IsAsciiDigits(value)))
  }

  function Relevant(lines: seq<string>): (r: seq<string>)
    ensures forall k :: 0 <= k < |r| ==> !Ignored(r[k])
  {
    if lines == [] then []
    else Relevant(lines[..|lines| - 1]) + (if Ignored(lines[|lines| - 1]) then [] else [lines[|lines| - 1]])
  }

  /** Dropping the ignored lines leaves the result of a call unchanged. */
  lemma {:induction false} IgnoredLinesChangeNothing(lines: seq<string>, start: Parsed)
    ensures Parse(Relevant(lines), start) == Parse(lines, start)
    decreases |lines|
  {
    if lines != [] {
      var init, last := lines[..|lines| - 1], lines[|lines| - 1];
      IgnoredLinesChangeNothing(init, start);
      if !Ignored(last) {
        ParseAppend(Relevant(init), [last], start);
        assert [last][..0] == [];
      } else {
        assert Relevant(lines) == Relevant(init);
      }
    }
  }

  /** The value of an `id` line, if the line is one. */
  function IdField(line: string): Option<string> {
    if line != [] && line[0] != Delimiter && FieldOf(line).0 == "id" then Some(FieldOf(line).1) else None
  }

  /** The value of a `retry` line made of ASCII digits, if the line is one. */
  function RetryField(line: string): Option<nat> {
    if line != [] && line[0] != Delimiter && FieldOf(line).0 == "retry" && IsAsciiDigits(FieldOf(line).1)
    then Some(DecimalValue(FieldOf(line).1)) else None
  }

  /** The value of the last `id` line, or `default` when there is none. */
  function LastId(lines: seq<string>, default: string): string {
    if lines == [] then default
    else match IdField(lines[|lines| - 1])
      case Some(v) => v
      case None => LastId(lines[..|lines| - 1], default)
  }

  /** The value of the last well-formed `retry` line, or `default` when there is none. */
  function LastRetry(lines: seq<string>, default: Option<nat>): Option<nat> {
    if lines == [] then default
    else match RetryField(lines[|lines| - 1])
      case Some(v) => Some(v)
      case None => LastRetry(lines[..|lines| - 1], default)
  }

  /**
   * The last event id is the value of the last `id` line, empty values included;
   * the reconnection time is the value of the last all-digit `retry` line. Every
   * other line leaves both alone.
   */
  lemma {:induction false} ReconnectionFields(lines: seq<string>, start: Parsed)
    ensures Parse(lines, start).lastEventId == LastId(lines, start.lastEventId)
    ensures Parse(lines, start).reconnectionTime == LastRetry(lines, start.reconnectionTime)
    decreases |lines|
  {
    if lines != [] {
      var init, last := lines[..|lines| - 1], lines[|lines| - 1];
      ReconnectionFields(init, start);
      StepFields(Parse(init, start), last);
    }
  }

  /** One line sets the id exactly when it is an `id` line, and the time exactly when it is a well-formed `retry` line. */
  lemma StepFields(p: Parsed, line: string)
    ensures Step(p, line).lastEventId == if IdField(line).Some? then IdField(line).value else p.lastEventId
    ensures Step(p, line).reconnectionTime == if RetryField(line).Some? then RetryField(line) else p.reconnectionTime
  {
    if line != [] && line[0] != Delimiter {
      var f := FieldOf(line);
      if f.0 == "id" {
        assert Step(p, line) == p.(lastEventId := f.1);
      } else if f.0 == "retry" && IsAsciiDigits(f.1) {
        assert Step(p, line) == p.(reconnectionTime := Some(DecimalValue(f.1)));
      } else {
        assert Step(p, line).lastEventId == p.lastEventId && Step(p, line).reconnectionTime == p.reconnectionTime;
      }
    }
  }

  // ---------------------------------------------------------------------
  // Worked cases of the field parser
  // ---------------------------------------------------------------------

  /** A field line `name: value` whose name holds no colon reads back as that name and value. */
  lemma FieldLine(name: string, value: string)
    requires Delimiter !in name
    ensures FieldOf(name + ": " + value) == (name, value)
  {
    var s := name + ": " + value;
    assert s[|name|] == Delimiter;
    assert FirstOf(s, {Delimiter}) == |name|;
    assert s[..|name|] == name;
    assert s[|name| + 1..] == " " + value;
  }

  /** Made only of line feeds (possibly none). */
  predicate AllLf(lfs: string) {
    forall k :: 0 <= k < |lfs| ==> lfs[k] == '\n'
  }

  /** Stripping trailing line feeds removes the whole run of them, however long, and nothing before it. */
  lemma {:induction false} TrimLfRun(s: string, lfs: string)
    requires NoTrailingLf(s) && AllLf(lfs)
    ensures TrimEnd(s + lfs, {'\n'}) == s
    decreases |lfs|
  {
    if lfs == [] {
      assert s + lfs == s;
    } else {
      var n := |lfs| - 1;
      assert (s + lfs)[|s + lfs| - 1] == '\n';
      assert (s + lfs)[..|s + lfs| - 1] == s + lfs[..n];
      TrimLfRun(s, lfs[..n]);
    }
  }

  lemma ParseSnoc(lines: seq<string>, line: string, start: Parsed)
    ensures Parse(lines + [line], start) == Step(Parse(lines, start), line)
  {
    assert (lines + [line])[..|lines|] == lines;
  }

  lemma EventLine(p: Parsed, t: string)
    ensures Step(p, "event: " + t) == p.(eventType := t)
  {
    assert "event: " + t == "event" + ": " + t;
    FieldLine("event", t);
  }

  lemma DataLine(p: Parsed, d: string)
    ensures Step(p, "data: " + d) == p.(eventData := p.eventData + d + "\n")
  {
    assert "data: " + d == "data" + ": " + d;
    FieldLine("data", d);
  }

  lemma IdLine(p: Parsed, v: string)
    ensures Step(p, "id: " + v) == p.(lastEventId := v)
  {
    assert "id: " + v == "id" + ": " + v;
    FieldLine("id", v);
  }

  /** A `retry` line sets the reconnection time when its value is all ASCII digits and is ignored otherwise. */
  lemma RetryLine(p: Parsed, v: string)
    ensures Step(p, "retry: " + v) == if IsAsciiDigits(v) then p.(reconnectionTime := Some(DecimalValue(v))) else p
  {
    assert "retry: " + v == "retry" + ": " + v;
    FieldLine("retry", v);
  }

  /**
   * A blank line dispatches the data accumulator with its whole run of
   * trailing line feeds removed, none, one or many, and writes that back.
   */
  lemma BlankLine(p: Parsed, d: string, lfs: string)
    requires p.eventData == d + lfs && NoTrailingLf(d) && AllLf(lfs)
    ensures Step(p, "").events == p.events + [Event(if p.eventType == [] then DefaultType else p.eventType, Some(d))]
    ensures Step(p, "").eventData == d
  {
    TrimLfRun(d, lfs);
  }

  /** A `data:` line with nothing after the colon appends a bare line feed. */
  lemma EmptyDataLine(p: Parsed)
    ensures Step(p, "data:") == p.(eventData := p.eventData + "\n")
  {
    assert FieldOf("data:") == ("data", "") by {
      var s := "data:";
      assert s[4] == Delimiter;
      assert FirstOf(s, {Delimiter}) == 4;
      assert s[..4] == "data" && s[5..] == "";
    }
  }

  /** A string ending in a non-empty string that has no trailing line feed has none either. */
  lemma NoTrailingLfAfter(x: string, b: string)
    requires b != [] && NoTrailingLf(b)
    ensures NoTrailingLf(x + b)
  {
    assert (x + b)[|x + b| - 1] == b[|b| - 1];
  }

  lemma ParseOne(line: string, p: Parsed)
    ensures Parse([line], p) == Step(p, line)
  {
    ParseSnoc([], line, p);
    assert [] + [line] == [line];
  }

  /** `event: t`, `data: d` and a blank line give one event of type t carrying d. */
  lemma NamedEvent(t: string, d: string, id: string, rt: Option<nat>)
    requires t != [] && NoTrailingLf(d)
    ensures Parse(["event: " + t, "data: " + d, ""], Begin(id, rt)).events == [Event(t, Some(d))]
  {
    var p0 := Begin(id, rt);
    var first, rest := ["event: " + t], ["data: " + d, ""];
    assert first + rest == ["event: " + t, "data: " + d, ""];
    ParseAppend(first, rest, p0);
    var p1 := p0.(eventType := t);
    assert Parse(first, p0) == p1 by {
      ParseOne("event: " + t, p0);
      EventLine(p0, t);
    }
    assert p1.eventData + d == d;
    DataThenBlank(p1, d);
  }

  /** Two data lines before a blank line give one `message` event whose data joins them with a line feed. */
  lemma DataLinesJoined(a: string, b: string, id: string, rt: Option<nat>)
    requires b != [] && NoTrailingLf(b)
    ensures Parse(["data: " + a, "data: " + b, ""], Begin(id, rt)).events == [Event(DefaultType, Some(a + "\n" + b))]
  {
    var p0 := Begin(id, rt);
    assert "" + a + "\n" == a + "\n";
    var first, rest := ["data: " + a], ["data: " + b, ""];
    assert first + rest == ["data: " + a, "data: " + b, ""];
    ParseAppend(first, rest, p0);
    var p1 := p0.(eventData := a + "\n");
    assert Parse(first, p0) == p1 by {
      ParseOne("data: " + a, p0);
      DataLine(p0, a);
    }
    NoTrailingLfAfter(a + "\n", b);
    DataThenBlank(p1, b);
  }

  /** A comment and an `id` line before a blank line give an empty `message` event and set the id. */
  lemma CommentAndId(c: string, v: string, id: string, rt: Option<nat>)
    ensures var p := Parse([":" + c, "id: " + v, ""], Begin(id, rt));
      p.events == [Event(DefaultType, Some(""))] && p.lastEventId == v && p.reconnectionTime == rt
  {
    var p0 := Begin(id, rt);
    var l0, l1 := ":" + c, "id: " + v;
    assert Parse([l0], p0) == p0 by {
      ParseSnoc([], l0, p0);
      assert [] + [l0] == [l0];
    }
    assert Parse([l0, l1], p0) == p0.(lastEventId := v) by {
      ParseSnoc([l0], l1, p0);
      assert [l0] + [l1] == [l0, l1];
      IdLine(p0, v);
    }
    ParseSnoc([l0, l1], "", p0);
    assert [l0, l1] + [""] == [l0, l1, ""];
  }

  /** A data line and a blank line dispatch the accumulated data extended by the line's value. */
  lemma DataThenBlank(p: Parsed, a: string)
    requires NoTrailingLf(p.eventData + a)
    ensures var eventType := if p.eventType == [] then DefaultType else p.eventType;
      Parse(["data: " + a, ""], p) == p.(events := p.events + [Event(eventType, Some(p.eventData + a))],
                                         eventType := eventType, eventData := p.eventData + a)
  {
    var l0 := "data: " + a;
    var d := p.eventData + a;
    assert p.eventData + a + "\n" == d + "\n";
    assert [l0] + [""] == [l0, ""];
    var p1 := p.(eventData := d + "\n");
    assert Parse([l0], p) == p1 by {
      ParseOne(l0, p);
      DataLine(p, a);
    }
    assert Parse([l0, ""], p) == Step(p1, "") by {
      ParseSnoc([l0], "", p);
    }
    assert Step(p1, "").eventData == d && Step(p1, "").events == p.events + [Event(Step(p1, "").eventType, Some(d))] by {
      BlankLine(p1, d, "\n");
    }
  }

  /**
   * An empty `data:` line adds a line feed that the dispatch strips again
   * together with the one ending the line before: the event carries `a`,
   * where a single stripped line feed would leave `a` followed by one.
   */
  lemma EveryTrailingLfStripped(a: string, id: string, rt: Option<nat>)
    requires NoTrailingLf(a)
    ensures Parse(["data: " + a, "data:", ""], Begin(id, rt)).events == [Event(DefaultType, Some(a))]
  {
    assert "" + a + "\n\n" == a + "\n\n";
    var p0 := Begin(id, rt);
    var p2 := p0.(eventData := a + "\n\n");
    assert Parse(["data: " + a, "data:", ""], p0) == Step(p2, "") by {
      DataThenEmptyData(p0, a);
    }
    assert Step(p2, "").events == [Event(DefaultType, Some(a))] by {
      BlankLine(p2, a, "\n\n");
    }
  }

  /** A data line and an empty `data:` line leave two line feeds after the value, which the blank line then sees. */
  lemma DataThenEmptyData(p: Parsed, a: string)
    ensures Parse(["data: " + a, "data:", ""], p) == Step(p.(eventData := p.eventData + a + "\n\n"), "")
  {
    var l0 := "data: " + a;
    assert p.eventData + a + "\n" + "\n" == p.eventData + a + "\n\n";
    assert [l0, "data:"] == [l0] + ["data:"];
    assert [l0, "data:"] + [""] == [l0, "data:", ""];
    var p1 := p.(eventData := p.eventData + a + "\n");
    assert Parse([l0], p) == p1 by {
      ParseOne(l0, p);
      DataLine(p, a);
    }
    assert Parse([l0, "data:"], p) == p.(eventData := p.eventData + a + "\n\n") by {
      ParseSnoc([l0], "data:", p);
      EmptyDataLine(p1);
    }
    ParseSnoc([l0, "data:"], "", p);
  }

  /**
   * Two events in one call: the second event's data starts with the first
   * event's, because the data accumulator is not cleared after a dispatch.
   */
  lemma DataCarriesOver(a: string, b: string, id: string, rt: Option<nat>)
    requires NoTrailingLf(a) && NoTrailingLf(b)
    ensures Parse(["data: " + a, "", "data: " + b, ""], Begin(id, rt)).events
      == [Event(DefaultType, Some(a)), Event(DefaultType, Some(a + b))]
  {
    assert "" + a == a;
    assert NoTrailingLf(a + b) by {
      if b == [] { assert a + b == a; } else { NoTrailingLfAfter(a, b); }
    }
    var first, second := ["data: " + a, ""], ["data: " + b, ""];
    assert first + second == ["data: " + a, "", "data: " + b, ""];
    var e1, e2 := Event(DefaultType, Some(a)), Event(DefaultType, Some(a + b));
    assert [e1] + [e2] == [e1, e2];
    var p0 := Begin(id, rt);
    var p1 := p0.(events := [e1], eventType := DefaultType, eventData := a);
    assert Parse(first, p0) == p1 by {
      DataThenBlank(p0, a);
    }
    assert Parse(second, p1).events == [e1, e2] by {
      DataThenBlank(p1, b);
    }
    ParseAppend(first, second, p0);
  }

  /** The shared record that the supervisor creates and the parser writes into. */
  class Config {
    /** The waiting period before a reconnect; never written by the parser. */
    var reconnectTimeout: real
    var lastEventId: string
    /** Absent until a well-formed `retry` field arrives. */
    var reconnectionTime: Option<nat>

    constructor (reconnectTimeout: real)
      ensures this.reconnectTimeout == reconnectTimeout
      ensures lastEventId == [] && reconnectionTime == None
    {
      this.reconnectTimeout := reconnectTimeout;
      lastEventId := [];
      reconnectionTime := None;
    }
  }

  /**
   * Runs the lines through the field parser with fresh accumulators, returning
   * the dispatched events in order and writing `id` and `retry` into the record.
   */
  method ParseEvents(lines: seq<string>, config: Config) returns (events: seq<Event>)
    modifies config
    ensures var p := Parse(lines, Begin(old(config.lastEventId), old(config.reconnectionTime)));
      events == p.events && config.lastEventId == p.lastEventId && config.reconnectionTime == p.reconnectionTime
    ensures config.reconnectTimeout == old(config.reconnectTimeout)
  {
    ghost var start := Begin(config.lastEventId, config.reconnectionTime);
    var eventType, eventData := "", "";
    events := [];
    for i := 0 to |lines|
      invariant Parse(lines[..i], start) == Parsed(events, eventType, eventData, config.lastEventId, config.reconnectionTime)
      invariant config.reconnectTimeout == old(config.reconnectTimeout)
    {
      var line := lines[i];
      assert lines[..i + 1][..i] == lines[..i];
      if line == [] {
        if eventType == [] {
          eventType := DefaultType;
        }
        eventData := TrimEnd(eventData, {'\n'});
        events := events + [Event(eventType, Some(eventData))];
        continue;
      }
      if line[0] == Delimiter {
        continue;
      }
      var (name, _, after) := Partition(line, Delimiter);
      var value := RemovePrefix(after, " ");
      if name == "event" {
        eventType := value;
      } else if name == "data" {
        eventData := eventData + value + "\n";
      } else if name == "id" {
        config.lastEventId := value;
      } else if name == "retry" {
        if IsAsciiDigits(value) {
          config.reconnectionTime := Some(DecimalValue(value));
        }
      }
    }
    assert lines[..|lines|] == lines;
  }
}
