/** The Server-Sent-Events reader of the chat client.

    The response body is read one character at a time into a buffer. Whenever the
    buffer holds a blank-line delimiter ("\n\n") it is split there: every complete frame
    is handled line by line, and the incomplete tail stays buffered. A line
    `data: <payload>` carries a JSON event, which is decoded and dispatched by its type;
    a `[DONE]` payload ends the stream at once. Whatever is buffered when the body ends
    is handled line by line as well.

    JSON decoding is not part of this model: it is the parameter `decode`, which gives
    the event a payload decodes to, or `None` when it does not decode. Callbacks are
    recorded, in the order they fire, as the sequence the reader returns. */
module ServerSentEvents {
  import opened Wrappers

  /** A citation record, passed through to the callback untouched. */
  datatype Source = Source(record: string)

  /** A decoded stream event: its `type` field and the optional payloads. */
  datatype StreamEvent = StreamEvent(eventType: string, content: Option<string>, sources: Option<seq<Source>>)

  /** A callback fired by the reader. */
  datatype Callback = OnContent(text: string) | OnSources(items: seq<Source>)

  const FrameDelimiter: string := "\n\n"
  const LineDelimiter: string := "\n"
  const DataPrefix: string := "data: "
  const DoneMarker: string := "[DONE]"

  // Character classes and trimming.

  /** Foundation's `CharacterSet.whitespaces` (Unicode class Zs, and tab) and
      `whitespacesAndNewlines` (those, U+000A to U+000D, U+0085, U+2028 and U+2029). */
  datatype CharClass = Whitespaces | WhitespacesAndNewlines

  const WhitespaceChars: set<char> := {
    ' ', '\t', '\U{A0}', '\U{1680}',
    '\U{2000}', '\U{2001}', '\U{2002}', '\U{2003}', '\U{2004}', '\U{2005}',
    '\U{2006}', '\U{2007}', '\U{2008}', '\U{2009}', '\U{200A}',
    '\U{202F}', '\U{205F}', '\U{3000}'}

  const NewlineChars: set<char> := {'\n', '\U{B}', '\U{C}', '\r', '\U{85}', '\U{2028}', '\U{2029}'}

  predicate IsWhitespace(c: char) { c in WhitespaceChars }

  predicate IsNewline(c: char) { c in NewlineChars }

  predicate InClass(c: char, cls: CharClass) {
    IsWhitespace(c) || (cls == WhitespacesAndNewlines && IsNewline(c))
  }

  /** Drops the leading characters of the class: what is left is a suffix that does not
      start with one. */
  function TrimStart(s: string, cls: CharClass): (r: string)
    ensures |r| <= |s| && r == s[|s| - |r|..]
    ensures r == [] || !InClass(r[0], cls)
  {
    if s != [] && InClass(s[0], cls) then TrimStart(s[1..], cls) else s
  }

  /** Drops the trailing characters of the class: what is left is a prefix that does not
      end with one. */
  function TrimEnd(s: string, cls: CharClass): (r: string)
    ensures |r| <= |s| && r == s[..|r|]
    ensures r == [] || !InClass(r[|r| - 1], cls)
  {
    if s != [] && InClass(s[|s| - 1], cls) then TrimEnd(s[..|s| - 1], cls) else s
  }

  /** Only characters of the class are dropped from the start. */
  lemma {:induction false} TrimStartDropsOnlyClass(s: string, cls: CharClass)
    ensures forall k :: 0 <= k < |s| - |TrimStart(s, cls)| ==> InClass(s[k], cls)
  {
    if s != [] && InClass(s[0], cls) {
      TrimStartDropsOnlyClass(s[1..], cls);
      forall k | 0 < k < |s| - |TrimStart(s, cls)|
        ensures InClass(s[k], cls)
      {
        assert s[k] == s[1..][k - 1];
      }
    }
  }

  /** Only characters of the class are dropped from the end. */
  lemma {:induction false} TrimEndDropsOnlyClass(s: string, cls: CharClass)
    ensures forall k :: |TrimEnd(s, cls)| <= k < |s| ==> InClass(s[k], cls)
  {
    if s != [] && InClass(s[|s| - 1], cls) {
      TrimEndDropsOnlyClass(s[..|s| - 1], cls);
      forall k | |TrimEnd(s, cls)| <= k < |s| - 1
        ensures InClass(s[k], cls)
      {
        assert s[k] == s[..|s| - 1][k];
      }
    }
  }

  /** `trimmingCharacters(in:)`: what is left neither starts nor ends with a character
      of the class. */
  function Trim(s: string, cls: CharClass): (r: string)
    ensures |r| <= |s|
    ensures r == [] || (!InClass(r[0], cls) && !InClass(r[|r| - 1], cls))
  {
    TrimEnd(TrimStart(s, cls), cls)
  }

  /** Trimming a string that starts and ends outside the class leaves it as it is. */
  lemma TrimUntouched(s: string, cls: CharClass)
    requires s != [] && !InClass(s[0], cls) && !InClass(s[|s| - 1], cls)
    ensures Trim(s, cls) == s
  {
  }

  predicate HasPrefix(s: string, prefix: string) {
    |prefix| <= |s| && s[..|prefix|] == prefix
  }

  // Splitting.

  /** `components(separatedBy:)`: the pieces between the leftmost non-overlapping
      occurrences of `sep`; a string without `sep` is one piece. */
  function SplitOn(s: string, sep: string): (parts: seq<string>)
    requires sep != []
    ensures |parts| >= 1
    decreases |s|
  {
    if |s| < |sep| then [s]
    else if s[..|sep|] == sep then [[]] + SplitOn(s[|sep|..], sep)
    else
      var rest := SplitOn(s[1..], sep);
      [[s[0]] + rest[0]] + rest[1..]
  }

  /** The pieces put back together with `sep` between them. */
  function JoinWith(parts: seq<string>, sep: string): string
    requires |parts| >= 1
  {
    if |parts| == 1 then parts[0] else parts[0] + sep + JoinWith(parts[1..], sep)
  }

  /** Prefixing the first piece with a character prefixes the joined string with it. */
  lemma JoinConsHead(c: char, parts: seq<string>, sep: string)
    requires |parts| >= 1
    ensures JoinWith([[c] + parts[0]] + parts[1..], sep) == [c] + JoinWith(parts, sep)
  {
    var longer := [[c] + parts[0]] + parts[1..];
    if |parts| > 1 {
      assert longer[1..] == parts[1..];
      assert JoinWith(longer, sep) == ([c] + parts[0]) + sep + JoinWith(parts[1..], sep);
    }
  }

  /** Splitting loses nothing: joining the pieces gives the string back. */
  lemma {:induction false} SplitJoin(s: string, sep: string)
    requires sep != []
    ensures JoinWith(SplitOn(s, sep), sep) == s
    decreases |s|
  {
    if |s| < |sep| {
    } else if s[..|sep|] == sep {
      SplitJoin(s[|sep|..], sep);
      SplitJoinAtSeparator(s, sep);
    } else {
      SplitJoin(s[1..], sep);
      SplitJoinAtChar(s, sep);
    }
  }

  /** The step of `SplitJoin` for a text that starts with the separator. */
  lemma SplitJoinAtSeparator(s: string, sep: string)
    requires sep != [] && |sep| <= |s| && s[..|sep|] == sep
    requires JoinWith(SplitOn(s[|sep|..], sep), sep) == s[|sep|..]
    ensures JoinWith(SplitOn(s, sep), sep) == s
  {
    var rest := SplitOn(s[|sep|..], sep);
    var parts := SplitOn(s, sep);
    assert parts == [[]] + rest;
    assert |parts| > 1 && parts[0] == [] && parts[1..] == rest;
    assert JoinWith(parts, sep) == parts[0] + sep + JoinWith(parts[1..], sep);
    EmptyThen(sep);
    TakeDrop(s, |sep|);
  }

  /** The step of `SplitJoin` for a text that does not start with the separator. */
  lemma SplitJoinAtChar(s: string, sep: string)
    requires sep != [] && |sep| <= |s| && s[..|sep|] != sep
    requires JoinWith(SplitOn(s[1..], sep), sep) == s[1..]
    ensures JoinWith(SplitOn(s, sep), sep) == s
  {
    var rest := SplitOn(s[1..], sep);
    assert SplitOn(s, sep) == [[s[0]] + rest[0]] + rest[1..];
    JoinConsHead(s[0], rest, sep);
    assert JoinWith(SplitOn(s, sep), sep) == [s[0]] + s[1..];
    TakeDrop(s, 1);
  }

  lemma EmptyThen(s: string)
    ensures [] + s == s
  {
  }

  lemma TakeDrop(s: string, n: nat)
    requires n <= |s|
    ensures s[..n] + s[n..] == s
    ensures n == 1 ==> [s[0]] + s[1..] == s
  {
    if n == 1 {
      assert s[..1] == [s[0]];
    }
  }

  /** `sep` occurs somewhere in `t`. */
  predicate Occurs(sep: string, t: string)
    decreases |t|
  {
    |sep| <= |t| && (HasPrefix(t, sep) || (t != [] && Occurs(sep, t[1..])))
  }

  /** No piece holds the separator, and no piece but the last runs into a separator that
      starts inside it: with all but the last character of `sep` appended it still holds
      none. So the separator that follows a piece is the first one after its start. */
  predicate PiecesClear(sep: string, parts: seq<string>)
    requires sep != []
    decreases |parts|
  {
    |parts| >= 1 &&
    if |parts| == 1 then !Occurs(sep, parts[0])
    else !Occurs(sep, parts[0] + sep[..|sep| - 1]) && PiecesClear(sep, parts[1..])
  }

  /** `parts` cuts `s` at the leftmost occurrences of `sep`: the pieces are clear of it,
      a single piece is the whole text, and otherwise the text starts with the first
      piece and a separator. */
  predicate LeftmostSplit(s: string, sep: string, parts: seq<string>)
    requires sep != []
  {
    && PiecesClear(sep, parts)
    && (|parts| == 1 ==> parts[0] == s)
    && (|parts| > 1 ==> HasPrefix(s, parts[0] + sep))
  }

  /** Splitting cuts at the leftmost occurrences of the separator. */
  lemma {:induction false} SplitLeftmost(s: string, sep: string)
    requires sep != []
    ensures LeftmostSplit(s, sep, SplitOn(s, sep))
    decreases |s|
  {
    if |s| < |sep| {
      assert SplitOn(s, sep) == [s];
    } else if s[..|sep|] == sep {
      SplitLeftmost(s[|sep|..], sep);
      LeftmostAtSeparator(s, sep);
    } else {
      SplitLeftmost(s[1..], sep);
      LeftmostAtChar(s, sep);
    }
  }

  /** The step of `SplitLeftmost` for a text that starts with the separator. */
  lemma LeftmostAtSeparator(s: string, sep: string)
    requires sep != [] && |sep| <= |s| && s[..|sep|] == sep
    requires LeftmostSplit(s[|sep|..], sep, SplitOn(s[|sep|..], sep))
    ensures LeftmostSplit(s, sep, SplitOn(s, sep))
  {
    var parts := SplitOn(s, sep);
    var rest := SplitOn(s[|sep|..], sep);
    assert parts == [[]] + rest;
    assert parts[0] == [] && parts[1..] == rest;
    EmptyThen(sep);
    EmptyThen(sep[..|sep| - 1]);
    assert !Occurs(sep, parts[0] + sep[..|sep| - 1]);
    assert HasPrefix(s, parts[0] + sep);
  }

  /** The step of `SplitLeftmost` for a text that does not start with the separator. */
  lemma LeftmostAtChar(s: string, sep: string)
    requires sep != [] && |sep| <= |s| && s[..|sep|] != sep
    requires LeftmostSplit(s[1..], sep, SplitOn(s[1..], sep))
    ensures LeftmostSplit(s, sep, SplitOn(s, sep))
  {
    var parts := SplitOn(s, sep);
    var rest := SplitOn(s[1..], sep);
    assert parts == [[s[0]] + rest[0]] + rest[1..];
    assert parts[0] == [s[0]] + rest[0] && parts[1..] == rest[1..];
    if |rest| == 1 {
      TakeDrop(s, 1);
      assert parts == [s];
      assert !HasPrefix(s, sep);
      OccursCons(s[0], s[1..], sep);
    } else {
      FirstPieceLeftmost(s, sep, rest[0]);
    }
  }

  /** A text that does not start with `sep`, and whose tail holds no `sep`, holds none. */
  lemma OccursCons(c: char, t: string, sep: string)
    requires !HasPrefix([c] + t, sep) && !Occurs(sep, t)
    ensures !Occurs(sep, [c] + t)
  {
    assert ([c] + t)[1..] == t;
  }

  /** The step of `SplitLeftmost` for a first piece that grows by the text's first character. */
  lemma FirstPieceLeftmost(s: string, sep: string, piece: string)
    requires sep != [] && |sep| <= |s| && s[..|sep|] != sep
    requires HasPrefix(s[1..], piece + sep)
    requires !Occurs(sep, piece + sep[..|sep| - 1])
    ensures HasPrefix(s, [s[0]] + piece + sep)
    ensures !Occurs(sep, [s[0]] + piece + sep[..|sep| - 1])
  {
    var u := piece + sep[..|sep| - 1];
    assert [s[0]] + piece + sep[..|sep| - 1] == [s[0]] + u;
    assert s[1..][..|piece| + |sep|] == piece + sep;
    forall j | 0 <= j < 1 + |piece| + |sep|
      ensures s[j] == ([s[0]] + piece + sep)[j]
    {
      if j > 0 {
        assert s[j] == s[1..][..|piece| + |sep|][j - 1];
      }
    }
    assert s[..1 + |piece| + |sep|] == [s[0]] + piece + sep;
    forall j | 0 <= j < |sep|
      ensures ([s[0]] + u)[j] == s[j]
    {
    }
    assert ([s[0]] + u)[..|sep|] == s[..|sep|];
    OccursCons(s[0], u, sep);
  }

  function Lines(s: string): seq<string> {
    SplitOn(s, LineDelimiter)
  }

  /** A line break splits the lines of what precedes it from the lines of what follows. */
  lemma {:induction false} LinesAppend(a: string, b: string)
    ensures Lines(a + LineDelimiter + b) == Lines(a) + Lines(b)
  {
    if a == [] {
      var s := a + LineDelimiter + b;
      assert s[..1] == LineDelimiter && s[1..] == b;
      assert Lines(a) == [[]];
    } else {
      LinesAppend(a[1..], b);
      LinesAppendStep(a, b);
    }
  }

  /** The step of `LinesAppend` from the text after the first character to the whole. */
  lemma LinesAppendStep(a: string, b: string)
    requires a != []
    requires Lines(a[1..] + LineDelimiter + b) == Lines(a[1..]) + Lines(b)
    ensures Lines(a + LineDelimiter + b) == Lines(a) + Lines(b)
  {
    var s := a + LineDelimiter + b;
    assert s[..1] == [a[0]] && a[..1] == [a[0]];
    assert s[1..] == a[1..] + LineDelimiter + b;
    if a[0] == '\n' {
      LinesAfterBreak(a, s, Lines(b));
    } else {
      assert [a[0]] != LineDelimiter;
      LinesAfterChar(a, s, Lines(b));
    }
  }

  /** A leading line break opens an empty first line in both texts. */
  lemma LinesAfterBreak(a: string, s: string, more: seq<string>)
    requires a != [] && s != [] && a[0] == '\n' && s[0] == '\n'
    requires Lines(s[1..]) == Lines(a[1..]) + more
    ensures Lines(s) == Lines(a) + more
  {
    assert s[..1] == LineDelimiter && a[..1] == LineDelimiter;
    var rest := Lines(a[1..]);
    assert Lines(a) == [[]] + rest;
    assert Lines(s) == [[]] + (rest + more);
  }

  /** A leading ordinary character joins the first line in both texts. */
  lemma LinesAfterChar(a: string, s: string, more: seq<string>)
    requires a != [] && s != [] && a[0] != '\n' && s[0] == a[0]
    requires Lines(s[1..]) == Lines(a[1..]) + more
    ensures Lines(s) == Lines(a) + more
  {
    assert [a[0]] != LineDelimiter;
    var rest := Lines(a[1..]);
    var tail := rest + more;
    assert |s| >= 1 && s[..1] == [a[0]] && a[..1] == [a[0]];
    assert Lines(a) == [[a[0]] + rest[0]] + rest[1..];
    assert Lines(s) == [[a[0]] + tail[0]] + tail[1..];
    assert tail[0] == rest[0] && tail[1..] == rest[1..] + more;
  }

  /** The buffer holds a blank-line delimiter. */
  predicate HasFrameEnd(s: string) {
    exists k :: 0 <= k < |s| - 1 && s[k] == '\n' && s[k + 1] == '\n'
  }

  /** A stretch of a delimiter-free text is delimiter-free. */
  lemma NoFrameEndInSlice(s: string, lo: int, hi: int)
    requires !HasFrameEnd(s) && 0 <= lo <= hi <= |s|
    ensures !HasFrameEnd(s[lo..hi])
  {
    var t := s[lo..hi];
    forall k | 0 <= k < |t| - 1
      ensures !(t[k] == '\n' && t[k + 1] == '\n')
    {
      assert t[k] == s[lo + k] && t[k + 1] == s[lo + k + 1];
    }
  }

  /** A buffer free of delimiters that gains one character gains a delimiter only at its
      end: the buffer ended in a line break and the character is another. */
  lemma FrameEndAtTail(buffer: string, c: char)
    requires !HasFrameEnd(buffer) && HasFrameEnd(buffer + [c])
    ensures |buffer| >= 1 && buffer[|buffer| - 1] == '\n' && c == '\n'
  {
    var s := buffer + [c];
    var k :| 0 <= k < |s| - 1 && s[k] == '\n' && s[k + 1] == '\n';
    if k + 1 < |buffer| {
      assert false;
    }
  }

  /** ... and then it splits into the frame before the delimiter and an empty tail. */
  lemma FrameCompleted(buffer: string, c: char)
    requires !HasFrameEnd(buffer) && HasFrameEnd(buffer + [c])
    ensures |buffer| >= 1
    ensures var frame := buffer[..|buffer| - 1];
      && buffer + [c] == frame + FrameDelimiter
      && SplitOn(buffer + [c], FrameDelimiter) == [frame, []]
  {
    FrameEndAtTail(buffer, c);
    FrameBeforeDelimiter(buffer, c);
    SplitLastFrame(buffer[..|buffer| - 1]);
  }

  /** A delimiter-free buffer ending in a line break, with one more line break, is the
      buffer's frame followed by the delimiter; that frame neither holds a delimiter nor
      ends in a line break. */
  lemma FrameBeforeDelimiter(buffer: string, c: char)
    requires !HasFrameEnd(buffer) && |buffer| >= 1 && buffer[|buffer| - 1] == '\n' && c == '\n'
    ensures var frame := buffer[..|buffer| - 1];
      && buffer + [c] == frame + FrameDelimiter
      && !HasFrameEnd(frame)
      && (frame == [] || frame[|frame| - 1] != '\n')
  {
    var frame := buffer[..|buffer| - 1];
    assert buffer + [c] == frame + FrameDelimiter;
    NoFrameEndInSlice(buffer, 0, |buffer| - 1);
    if |frame| >= 1 {
      assert frame[|frame| - 1] == buffer[|buffer| - 2];
    }
  }

  /** A frame free of delimiters and not ending in a line break, followed by a delimiter,
      splits into the frame and an empty tail. */
  lemma {:induction false} SplitLastFrame(frame: string)
    requires !HasFrameEnd(frame)
    requires frame == [] || frame[|frame| - 1] != '\n'
    ensures SplitOn(frame + FrameDelimiter, FrameDelimiter) == [frame, []]
  {
    var s := frame + FrameDelimiter;
    if frame == [] {
      assert s[..2] == FrameDelimiter && s[2..] == [];
    } else {
      assert s[..2] != FrameDelimiter by {
        assert s[..2][0] == frame[0];
        if |frame| >= 2 {
          assert s[..2][1] == frame[1];
          assert !(frame[0] == '\n' && frame[1] == '\n');
        } else {
          assert frame[0] != '\n';
        }
      }
      var tail := frame[1..];
      assert s[1..] == tail + FrameDelimiter;
      NoFrameEndInSlice(frame, 1, |frame|);
      SplitLastFrame(tail);
      assert [frame[0]] + tail == frame;
    }
  }

  // What one line does.

  datatype LineAction = Skip | Stop | Emit(callback: Callback)

  /** Dispatch by event type: sources with sources present, content with content present;
      anything else fires nothing. */
  function Dispatch(event: StreamEvent): (r: Option<Callback>)
    ensures r.Some? && r.value.OnSources? <==> event.eventType == "sources" && event.sources.Some?
    ensures r.Some? && r.value.OnContent? <==> event.eventType == "content" && event.content.Some?
    ensures r.Some? && r.value.OnSources? ==> r.value.items == event.sources.value
    ensures r.Some? && r.value.OnContent? ==> r.value.text == event.content.value
  {
    if event.eventType == "sources" then
      match event.sources
      case Some(items) => Some(OnSources(items))
      case None => None
    else if event.eventType == "content" then
      match event.content
      case Some(text) => Some(OnContent(text))
      case None => None
    else None
  }

  /** One line of a frame: blank lines and lines that are not `data: ` lines are skipped;
      the payload of a `data: ` line is handled by `InterpretPayload`. */
  function InterpretLine(line: string, decode: string -> Option<StreamEvent>): (r: LineAction)
    ensures !HasPrefix(Trim(line, WhitespacesAndNewlines), DataPrefix) ==> r == Skip
  {
    var trimmed := Trim(line, WhitespacesAndNewlines);
    if trimmed == [] || !HasPrefix(trimmed, DataPrefix) then Skip
    else InterpretPayload(trimmed[|DataPrefix|..], decode)
  }

  /** A `[DONE]` payload stops the stream, a payload that does not decode is skipped, and
      a decoded event is dispatched. */
  function InterpretPayload(payload: string, decode: string -> Option<StreamEvent>): (r: LineAction)
    ensures r.Stop? <==> Trim(payload, Whitespaces) == DoneMarker
    ensures !r.Stop? ==> r == EventAction(decode(payload))
  {
    if Trim(payload, Whitespaces) == DoneMarker then Stop
    else EventAction(decode(payload))
  }

  /** A decoded event fires the callback it dispatches to; an event that does not
      decode, or dispatches to nothing, is skipped. */
  function EventAction(event: Option<StreamEvent>): (r: LineAction)
    ensures !r.Stop?
    ensures r.Emit? <==> event.Some? && Dispatch(event.value).Some?
    ensures r.Emit? ==> r.callback == Dispatch(event.value).value
  {
    if event.None? then Skip
    else if Dispatch(event.value).None? then Skip
    else Emit(Dispatch(event.value).value)
  }

  /** A `data: ` line whose payload has nothing to trim at its end hands exactly that
      payload to the decoder, and fires the callback its event dispatches to. */
  lemma DataLineDispatchesPayload(line: string, payload: string, decode: string -> Option<StreamEvent>)
    requires line == DataPrefix + payload
    requires payload != [] && !InClass(payload[|payload| - 1], WhitespacesAndNewlines)
    requires Trim(payload, Whitespaces) != DoneMarker
    ensures InterpretLine(line, decode) == EventAction(decode(payload))
  {
    DataLineUntrimmed(line, payload);
    DataLinePayload(line, decode);
    assert InterpretLine(line, decode) == InterpretPayload(payload, decode);
  }

  /** The end-of-stream line stops the stream whatever the decoder says. */
  lemma DoneLineStops(line: string, decode: string -> Option<StreamEvent>)
    requires line == DataPrefix + DoneMarker
    ensures InterpretLine(line, decode) == Stop
  {
    assert DoneMarker[|DoneMarker| - 1] == ']';
    DataLineUntrimmed(line, DoneMarker);
    DataLinePayload(line, decode);
    DoneMarkerUntrimmed();
  }

  /** A trimmed `data: ` line is handled by its payload. */
  lemma DataLinePayload(line: string, decode: string -> Option<StreamEvent>)
    requires Trim(line, WhitespacesAndNewlines) == line && line != [] && HasPrefix(line, DataPrefix)
    ensures InterpretLine(line, decode) == InterpretPayload(line[|DataPrefix|..], decode)
  {
  }

  /** A `data: ` line whose payload ends outside the trimmed class survives trimming,
      and its payload is what follows the prefix. */
  lemma DataLineUntrimmed(line: string, payload: string)
    requires line == DataPrefix + payload
    requires payload != [] && !InClass(payload[|payload| - 1], WhitespacesAndNewlines)
    ensures Trim(line, WhitespacesAndNewlines) == line && line != [] && HasPrefix(line, DataPrefix)
    ensures line[|DataPrefix|..] == payload
  {
    assert line[0] == 'd' && line[|line| - 1] == payload[|payload| - 1];
    TrimUntouched(line, WhitespacesAndNewlines);
    assert line[..|DataPrefix|] == DataPrefix;
  }

  lemma DoneMarkerUntrimmed()
    ensures Trim(DoneMarker, Whitespaces) == DoneMarker
  {
    assert DoneMarker[0] == '[' && DoneMarker[|DoneMarker| - 1] == ']';
    TrimUntouched(DoneMarker, Whitespaces);
  }

  /** A line made only of white space does nothing. */
  lemma BlankLineSkipped(line: string, decode: string -> Option<StreamEvent>)
    requires forall k :: 0 <= k < |line| ==> InClass(line[k], WhitespacesAndNewlines)
    ensures InterpretLine(line, decode) == Skip
  {
  }

  /** How the reader treats each line of the stream: `InterpretLine` with the decoder. */
  function LineHandler(decode: string -> Option<StreamEvent>): string -> LineAction {
    line => InterpretLine(line, decode)
  }

  /** A blank line, such as the empty text after a frame's last line break, is skipped. */
  lemma EmptyLineSkipped(decode: string -> Option<StreamEvent>)
    ensures LineHandler(decode)([]) == Skip
  {
    assert InterpretLine([], decode) == Skip;
  }

  // The effect of a run of lines. The frame arithmetic below holds for any way of
  // handling a single line, so it is stated for a handler `handle` of any kind.

  /** The callbacks fired, and whether the stream was stopped by `[DONE]`. */
  datatype Effect = Effect(callbacks: seq<Callback>, stopped: bool)

  const Nothing := Effect([], false)

  /** `first`, then `second` unless `first` stopped the stream. */
  function Then(first: Effect, second: Effect): (r: Effect)
    ensures first.stopped ==> r == first
    ensures !first.stopped ==> r.callbacks == first.callbacks + second.callbacks && r.stopped == second.stopped
  {
    if first.stopped then first else Effect(first.callbacks + second.callbacks, second.stopped)
  }

  /** Effects compose associatively. */
  lemma ThenAssociative(x: Effect, y: Effect, z: Effect)
    ensures Then(Then(x, y), z) == Then(x, Then(y, z))
  {
  }

  /** What one line contributes on its own. */
  function ActionEffect(action: LineAction): Effect {
    match action
    case Stop => Effect([], true)
    case Skip => Nothing
    case Emit(callback) => Effect([callback], false)
  }

  /** Handling lines in order until one stops the stream. */
  function RunLines(lines: seq<string>, handle: string -> LineAction): Effect {
    if lines == [] then Nothing
    else Then(ActionEffect(handle(lines[0])), RunLines(lines[1..], handle))
  }

  /** Running two batches of lines one after the other is running them together. */
  lemma {:induction false} RunLinesAppend(a: seq<string>, b: seq<string>, handle: string -> LineAction)
    ensures RunLines(a + b, handle) == Then(RunLines(a, handle), RunLines(b, handle))
  {
    if a == [] {
      assert a + b == b;
    } else {
      assert (a + b)[0] == a[0] && (a + b)[1..] == a[1..] + b;
      RunLinesAppend(a[1..], b, handle);
      ThenAssociative(ActionEffect(handle(a[0])), RunLines(a[1..], handle), RunLines(b, handle));
    }
  }

  /** What the whole response body does, taken as one run of lines. */
  function StreamEffect(body: string, handle: string -> LineAction): Effect {
    RunLines(Lines(body), handle)
  }

  /** Nothing after a `[DONE]` line fires a callback. */
  lemma {:induction false} NothingAfterDone(before: string, after: string, decode: string -> Option<StreamEvent>)
    ensures StreamEffect(before + LineDelimiter + DataPrefix + DoneMarker + LineDelimiter + after, LineHandler(decode))
         == Then(StreamEffect(before, LineHandler(decode)), Effect([], true))
  {
    var handle := LineHandler(decode);
    var done := DataPrefix + DoneMarker;
    assert before + LineDelimiter + DataPrefix + DoneMarker + LineDelimiter + after
        == before + LineDelimiter + (done + LineDelimiter + after);
    LinesAppend(before, done + LineDelimiter + after);
    LinesAppend(done, after);
    RunLinesAppend(Lines(before), Lines(done) + Lines(after), handle);
    RunLinesAppend(Lines(done), Lines(after), handle);
    DoneLineStops(done, decode);
    assert handle(done) == Stop;
    DoneLineIsOneLine();
  }

  lemma DoneLineIsOneLine()
    ensures Lines(DataPrefix + DoneMarker) == [DataPrefix + DoneMarker]
  {
    var done := DataPrefix + DoneMarker;
    forall k | 0 <= k < |done|
      ensures done[k] != '\n'
    {
      if k < |DataPrefix| {
        assert done[k] == DataPrefix[k];
      } else {
        assert done[k] == DoneMarker[k - |DataPrefix|];
      }
    }
    NoBreakOneLine(done);
  }

  /** Text without a line break is one line. */
  lemma {:induction false} NoBreakOneLine(s: string)
    requires forall k :: 0 <= k < |s| ==> s[k] != '\n'
    ensures Lines(s) == [s]
  {
    if s != [] {
      assert s[..1] != LineDelimiter by {
        assert s[..1][0] == s[0];
      }
      NoBreakOneLine(s[1..]);
      assert [s[0]] + s[1..] == s;
    }
  }

  /** What was read so far is accounted for by `callbacks`: either nothing has been
      handed over, or the text `processed` followed by a line break has, firing
      `callbacks` without stopping the stream. */
  ghost predicate Accounted(consumed: string, processed: string, callbacks: seq<Callback>,
                            handle: string -> LineAction)
  {
    || (consumed == [] && callbacks == [])
    || (consumed == processed + LineDelimiter && StreamEffect(processed, handle) == Effect(callbacks, false))
  }

  /** Once the text read so far is accounted for, any continuation `rest` adds its own
      effect after those callbacks. */
  lemma ContinueAfter(consumed: string, processed: string, callbacks: seq<Callback>,
                      rest: string, handle: string -> LineAction)
    requires Accounted(consumed, processed, callbacks, handle)
    ensures StreamEffect(consumed + rest, handle) == Then(Effect(callbacks, false), StreamEffect(rest, handle))
  {
    if consumed == [] {
      assert consumed + rest == rest;
    } else {
      assert consumed + rest == processed + LineDelimiter + rest;
      LinesAppend(processed, rest);
      RunLinesAppend(Lines(processed), Lines(rest), handle);
    }
  }

  /** Handling a frame and then the line break that follows it adds only what the empty
      line after that break does. */
  lemma FrameThenBreak(frame: string, handle: string -> LineAction)
    ensures StreamEffect(frame + LineDelimiter, handle)
         == Then(StreamEffect(frame, handle), ActionEffect(handle([])))
  {
    assert frame + LineDelimiter == frame + LineDelimiter + [];
    LinesAppend(frame, []);
    RunLinesAppend(Lines(frame), Lines([]), handle);
    assert Lines([]) == [[]];
  }

  /** A frame delimiter is two line breaks. */
  lemma DelimiterIsTwoBreaks(consumed: string, frame: string, rest: string)
    ensures consumed + (frame + FrameDelimiter) == consumed + frame + LineDelimiter + LineDelimiter
    ensures consumed + frame + LineDelimiter == consumed + (frame + LineDelimiter)
    ensures consumed + (frame + FrameDelimiter) + rest == consumed + (frame + LineDelimiter + (LineDelimiter + rest))
  {
    assert FrameDelimiter == LineDelimiter + LineDelimiter;
  }

  /** A frame that does not stop the stream, with its delimiter, is accounted for by
      the callbacks it fires: the first line break of the delimiter ends its last line,
      and the second is still to be handled. */
  lemma FrameKept(consumed: string, processed: string, callbacks: seq<Callback>, frame: string,
                  emitted: seq<Callback>, handle: string -> LineAction)
    requires handle([]) == Skip
    requires Accounted(consumed, processed, callbacks, handle)
    requires StreamEffect(frame, handle) == Effect(emitted, false)
    ensures Accounted(consumed + (frame + FrameDelimiter), consumed + frame + LineDelimiter,
                      callbacks + emitted, handle)
  {
    DelimiterIsTwoBreaks(consumed, frame, []);
    ContinueAfter(consumed, processed, callbacks, frame + LineDelimiter, handle);
    FrameThenBreak(frame, handle);
  }

  /** A frame that stops the stream ends it: whatever follows fires nothing. */
  lemma FrameStops(consumed: string, processed: string, callbacks: seq<Callback>, frame: string,
                   emitted: seq<Callback>, rest: string, handle: string -> LineAction)
    requires Accounted(consumed, processed, callbacks, handle)
    requires StreamEffect(frame, handle) == Effect(emitted, true)
    ensures StreamEffect(consumed + (frame + FrameDelimiter) + rest, handle) == Effect(callbacks + emitted, true)
  {
    var after := LineDelimiter + rest;
    DelimiterIsTwoBreaks(consumed, frame, rest);
    ContinueAfter(consumed, processed, callbacks, frame + LineDelimiter + after, handle);
    LinesAppend(frame, after);
    RunLinesAppend(Lines(frame), Lines(after), handle);
  }

  /** At the end of the body the buffered tail is handled as a last run of lines; an
      empty tail does nothing. */
  lemma TailHandled(consumed: string, processed: string, callbacks: seq<Callback>, buffer: string,
                    handle: string -> LineAction)
    requires handle([]) == Skip
    requires Accounted(consumed, processed, callbacks, handle)
    ensures buffer == [] ==> StreamEffect(consumed + buffer, handle).callbacks == callbacks
    ensures buffer != [] ==>
      StreamEffect(consumed + buffer, handle).callbacks == callbacks + StreamEffect(buffer, handle).callbacks
  {
    ContinueAfter(consumed, processed, callbacks, buffer, handle);
    if buffer == [] {
      assert Lines(buffer) == [[]];
    }
  }

  // The reader.

  /** Reading the next character of the body extends what was read by it. */
  lemma ReadOneMore(body: string, i: int, consumed: string, buffer: string)
    requires 0 <= i < |body| && body[..i] == consumed + buffer
    ensures body[..i + 1] == consumed + (buffer + [body[i]])
    ensures body == consumed + (buffer + [body[i]]) + body[i + 1..]
  {
    assert body[..i + 1] == body[..i] + [body[i]];
    assert body == body[..i + 1] + body[i + 1..];
  }

  /** A frame that stops the stream, read up to its delimiter, ends the body's callbacks. */
  lemma StopInFrame(body: string, i: int, consumed: string, processed: string, callbacks: seq<Callback>,
                    buffer: string, emitted: seq<Callback>, handle: string -> LineAction)
    requires 0 <= i < |body| && body[..i] == consumed + buffer
    requires |buffer| >= 1 && buffer + [body[i]] == buffer[..|buffer| - 1] + FrameDelimiter
    requires Accounted(consumed, processed, callbacks, handle)
    requires StreamEffect(buffer[..|buffer| - 1], handle) == Effect(emitted, true)
    ensures callbacks + emitted == StreamEffect(body, handle).callbacks
  {
    ReadOneMore(body, i, consumed, buffer);
    FrameStops(consumed, processed, callbacks, buffer[..|buffer| - 1], emitted, body[i + 1..], handle);
  }

  /** A frame that does not stop the stream, read up to its delimiter, is accounted for
      with the callbacks it fires, and nothing stays buffered. */
  lemma KeepFrame(body: string, i: int, consumed: string, processed: string, callbacks: seq<Callback>,
                  buffer: string, emitted: seq<Callback>, handle: string -> LineAction)
    requires handle([]) == Skip
    requires 0 <= i < |body| && body[..i] == consumed + buffer
    requires |buffer| >= 1 && buffer + [body[i]] == buffer[..|buffer| - 1] + FrameDelimiter
    requires Accounted(consumed, processed, callbacks, handle)
    requires StreamEffect(buffer[..|buffer| - 1], handle) == Effect(emitted, false)
    ensures var frame := buffer[..|buffer| - 1];
      && body[..i + 1] == consumed + (frame + FrameDelimiter) + []
      && Accounted(consumed + (frame + FrameDelimiter), consumed + frame + LineDelimiter, callbacks + emitted, handle)
  {
    ReadOneMore(body, i, consumed, buffer);
    FrameKept(consumed, processed, callbacks, buffer[..|buffer| - 1], emitted, handle);
  }

  /** Once the whole body is read, the buffered tail adds its own callbacks, if any. */
  lemma BodyRead(body: string, consumed: string, processed: string, callbacks: seq<Callback>,
                 buffer: string, handle: string -> LineAction)
    requires handle([]) == Skip
    requires body[..|body|] == consumed + buffer
    requires Accounted(consumed, processed, callbacks, handle)
    ensures buffer == [] ==> StreamEffect(body, handle).callbacks == callbacks
    ensures buffer != [] ==> StreamEffect(body, handle).callbacks == callbacks + StreamEffect(buffer, handle).callbacks
  {
    assert body == consumed + buffer by {
      assert body[..|body|] == body;
    }
    TailHandled(consumed, processed, callbacks, buffer, handle);
  }

  /** Handling the lines from `j` on is handling line `j`, then the rest. */
  lemma RunLinesFrom(lines: seq<string>, j: int, handle: string -> LineAction)
    requires 0 <= j < |lines|
    ensures RunLines(lines[j..], handle) == Then(ActionEffect(handle(lines[j])), RunLines(lines[j + 1..], handle))
  {
    assert lines[j..][0] == lines[j] && lines[j..][1..] == lines[j + 1..];
  }

  /** The callbacks fired so far, followed by one line's action and the rest. */
  lemma Accumulate(callbacks: seq<Callback>, action: LineAction, rest: Effect, total: Effect)
    requires Then(Effect(callbacks, false), Then(ActionEffect(action), rest)) == total
    ensures action.Stop? ==> Effect(callbacks, true) == total
    ensures action.Skip? ==> Then(Effect(callbacks, false), rest) == total
    ensures action.Emit? ==> Then(Effect(callbacks + [action.callback], false), rest) == total
  {
    ThenAssociative(Effect(callbacks, false), ActionEffect(action), rest);
    if action.Emit? {
      assert Then(Effect(callbacks, false), ActionEffect(action)) == Effect(callbacks + [action.callback], false);
    }
  }

  /** Handles lines in order, stopping at the first line whose action is to stop. */
  method HandleLines(lines: seq<string>, handle: string -> LineAction)
    returns (callbacks: seq<Callback>, stopped: bool)
    ensures Effect(callbacks, stopped) == RunLines(lines, handle)
  {
    callbacks := [];
    var j := 0;
    assert lines[j..] == lines;
    assert Then(Nothing, RunLines(lines, handle)) == RunLines(lines, handle);
    while j < |lines|
      invariant 0 <= j <= |lines|
      invariant Then(Effect(callbacks, false), RunLines(lines[j..], handle)) == RunLines(lines, handle)
    {
      var action := handle(lines[j]);
      RunLinesFrom(lines, j, handle);
      Accumulate(callbacks, action, RunLines(lines[j + 1..], handle), RunLines(lines, handle));
      match action {
        case Stop =>
          return callbacks, true;
        case Skip =>
        case Emit(callback) =>
          callbacks := callbacks + [callback];
      }
      j := j + 1;
    }
    assert lines[j..] == [];
    stopped := false;
  }

  /** Handling complete frames in order, each line by line, until one stops the stream. */
  function RunFrames(frames: seq<string>, handle: string -> LineAction): Effect {
    if frames == [] then Nothing
    else Then(StreamEffect(frames[0], handle), RunFrames(frames[1..], handle))
  }

  /** A single frame is handled as its own lines. */
  lemma RunOneFrame(frame: string, handle: string -> LineAction)
    ensures RunFrames([frame], handle) == StreamEffect(frame, handle)
  {
    assert [frame][1..] == [];
  }

  /** Handling the frames from `j` on is handling frame `j`, then the rest. */
  lemma RunFramesFrom(frames: seq<string>, j: int, handle: string -> LineAction)
    requires 0 <= j < |frames|
    ensures RunFrames(frames[j..], handle) == Then(StreamEffect(frames[j], handle), RunFrames(frames[j + 1..], handle))
  {
    assert frames[j..][0] == frames[j] && frames[j..][1..] == frames[j + 1..];
  }

  /** The callbacks fired so far, followed by one frame's effect and the rest. */
  lemma AccumulateFrame(callbacks: seq<Callback>, frame: Effect, rest: Effect, total: Effect)
    requires Then(Effect(callbacks, false), Then(frame, rest)) == total
    ensures frame.stopped ==> Effect(callbacks + frame.callbacks, true) == total
    ensures !frame.stopped ==> Then(Effect(callbacks + frame.callbacks, false), rest) == total
  {
    ThenAssociative(Effect(callbacks, false), frame, rest);
  }

  /** Handles every complete frame in order, stopping at the first that stops the stream. */
  method HandleFrames(frames: seq<string>, handle: string -> LineAction)
    returns (callbacks: seq<Callback>, stopped: bool)
    ensures Effect(callbacks, stopped) == RunFrames(frames, handle)
  {
    callbacks := [];
    var j := 0;
    assert frames[j..] == frames;
    assert Then(Nothing, RunFrames(frames, handle)) == RunFrames(frames, handle);
    while j < |frames|
      invariant 0 <= j <= |frames|
      invariant Then(Effect(callbacks, false), RunFrames(frames[j..], handle)) == RunFrames(frames, handle)
    {
      var emitted, frameStopped := HandleLines(Lines(frames[j]), handle);
      RunFramesFrom(frames, j, handle);
      AccumulateFrame(callbacks, Effect(emitted, frameStopped), RunFrames(frames[j + 1..], handle),
                      RunFrames(frames, handle));
      if frameStopped {
        return callbacks + emitted, true;
      }
      callbacks := callbacks + emitted;
      j := j + 1;
    }
    assert frames[j..] == [];
    stopped := false;
  }

  /** Handles a buffer that has just completed a frame: it is split at the delimiter,
      every part but the last is handled as a frame, and the last part, the empty
      text after the delimiter, is what stays buffered. */
  method FlushFrame(buffer: string, c: char, handle: string -> LineAction)
    returns (emitted: seq<Callback>, stopped: bool, rest: string)
    requires !HasFrameEnd(buffer) && HasFrameEnd(buffer + [c])
    ensures |buffer| >= 1 && buffer + [c] == buffer[..|buffer| - 1] + FrameDelimiter
    ensures Effect(emitted, stopped) == StreamEffect(buffer[..|buffer| - 1], handle)
    ensures rest == []
  {
    FrameCompleted(buffer, c);
    var parts := SplitOn(buffer + [c], FrameDelimiter);
    ghost var frame := buffer[..|buffer| - 1];
    // Every part but the last is a complete frame; here there is exactly one.
    assert parts[..|parts| - 1] == [frame];
    RunOneFrame(frame, handle);
    emitted, stopped := HandleFrames(parts[..|parts| - 1], handle);
    rest := parts[|parts| - 1];
  }

  /** Reads the whole response body, handling each line with `handle`. The callbacks
      fired are exactly those of handling every line of the body in order until one
      stops the stream: reading in frames neither loses, repeats nor reorders a line. */
  method ReadFrames(body: string, handle: string -> LineAction) returns (callbacks: seq<Callback>)
    requires handle([]) == Skip
    ensures callbacks == StreamEffect(body, handle).callbacks
  {
    var buffer: string := [];
    callbacks := [];
    var i := 0;
    ghost var consumed: string := [];
    ghost var processed: string := [];
    while i < |body|
      invariant 0 <= i <= |body|
      invariant body[..i] == consumed + buffer
      invariant !HasFrameEnd(buffer)
      invariant Accounted(consumed, processed, callbacks, handle)
    {
      var c := body[i];
      if HasFrameEnd(buffer + [c]) {
        var emitted, stopped, rest := FlushFrame(buffer, c, handle);
        if stopped {
          // The stream ends inside this frame.
          StopInFrame(body, i, consumed, processed, callbacks, buffer, emitted, handle);
          return callbacks + emitted;
        }
        KeepFrame(body, i, consumed, processed, callbacks, buffer, emitted, handle);
        ghost var frame := buffer[..|buffer| - 1];
        callbacks := callbacks + emitted;
        processed := consumed + frame + LineDelimiter;
        consumed := consumed + (frame + FrameDelimiter);
        buffer := rest;
      } else {
        ReadOneMore(body, i, consumed, buffer);
        buffer := buffer + [c];
      }
      i := i + 1;
    }
    BodyRead(body, consumed, processed, callbacks, buffer, handle);
    if buffer != [] {
      var emitted, stopped := HandleLines(Lines(buffer), handle);
      callbacks := callbacks + emitted;
    }
  }

  /** Reads the chat response body: the callbacks fired are exactly those of
      interpreting every line of the body in order until `[DONE]`. */
  method ReadStream(body: string, decode: string -> Option<StreamEvent>) returns (callbacks: seq<Callback>)
    ensures callbacks == StreamEffect(body, LineHandler(decode)).callbacks
  {
    EmptyLineSkipped(decode);
    callbacks := ReadFrames(body, LineHandler(decode));
  }
}
