/** Server-Sent-Events helpers of server.js: recognising the event-stream media
    type, clamping the configured duration, and cutting a stored response body into
    event records. */
module SseEvents {
  import opened Wrappers
  import opened JsString

  const EVENT_STREAM: string := "text/event-stream"

  /** The comment event sent when a body has no non-blank line. */
  const KEEPALIVE: string := ": keepalive\n\n"

  /** `isEventStreamContentType`: the media type (text before the first `;`),
      trimmed and lower-cased, is `text/event-stream`. `None` is a missing value;
      the empty string is falsy and so is not an event stream either. */
  function IsEventStreamContentType(contentType: Option<string>): (r: bool)
    ensures r ==> contentType.Some? && contentType.value != ""
  {
    contentType.Some? && contentType.value != ""
    && ToLower(Trim(BeforeFirst(contentType.value, ';'))) == EVENT_STREAM
  }

  /** Media-type parameters never change the answer: only the text before the
      first `;` is looked at. */
  lemma ParametersIgnored(mediaType: string, parameters: string)
    ensures IsEventStreamContentType(Some(mediaType + ";" + parameters))
        == IsEventStreamContentType(Some(mediaType))
  {
    BeforeFirstAppend(mediaType, ';', parameters);
    if mediaType == "" {
      assert BeforeFirst(mediaType, ';') == "";
    }
  }

  /** For a media type already trimmed and free of `;`, whatever parameters
      follow: the content type is an event stream exactly when the media type,
      lower-cased, is `text/event-stream`. */
  lemma MediaTypeDecides(mediaType: string, parameters: string)
    requires ';' !in mediaType
    requires mediaType == [] || (!IsWhitespace(mediaType[0]) && !IsWhitespace(mediaType[|mediaType| - 1]))
    ensures IsEventStreamContentType(Some(mediaType + ";" + parameters)) <==> ToLower(mediaType) == EVENT_STREAM
  {
    var v := mediaType + ";" + parameters;
    BeforeFirstAppend(mediaType, ';', parameters);
    BeforeFirstAbsent(mediaType, ';');
    TrimOfTrimmed(mediaType);
    assert v != "";
    if mediaType == [] {
      assert ToLower(mediaType) == [];
    }
  }

  /** Any capitalisation of `text/event-stream`, with or without parameters, is
      recognised. */
  lemma EventStreamRecognised(mediaType: string, parameters: string)
    requires ToLower(mediaType) == EVENT_STREAM
    ensures IsEventStreamContentType(Some(mediaType))
    ensures IsEventStreamContentType(Some(mediaType + ";" + parameters))
  {
    var n := |mediaType|;
    assert n == 17;
    assert LowerChar(mediaType[0]) == 't' && LowerChar(mediaType[n - 1]) == 'm';
    forall i | 0 <= i < n ensures mediaType[i] != ';' {
      assert LowerChar(mediaType[i]) == EVENT_STREAM[i];
    }
    MediaTypeDecides(mediaType, parameters);
    ParametersIgnored(mediaType, parameters);
  }

  /** A JavaScript number after `Number(value)`, in milliseconds of the seconds it
      denotes; `NonFinite` is NaN or an infinity. */
  datatype Seconds = FiniteMs(ms: int) | NonFinite

  /** `normalizeSseDurationSeconds` (scaled to milliseconds): a finite
      non-negative duration is kept, anything else becomes zero. */
  function NormalizeSseDuration(value: Seconds): (r: nat)
    ensures value.FiniteMs? && value.ms >= 0 ==> r == value.ms
    ensures !(value.FiniteMs? && value.ms >= 0) ==> r == 0
  {
    if value.NonFinite? || value.ms < 0 then 0 else value.ms
  }

  /** Clamping is idempotent: a stored duration is already normal. */
  lemma NormalizeSseDurationIdempotent(value: Seconds)
    ensures NormalizeSseDuration(FiniteMs(NormalizeSseDuration(value))) == NormalizeSseDuration(value)
  {
  }

  /** Drops one `\r` that ends a line. */
  function DropCarriageReturn(line: string): (r: string)
    ensures r <= line
  {
    if |line| > 0 && line[|line| - 1] == '\r' then line[..|line| - 1] else line
  }

  /** `text.split(/\r?\n/)`: split at every `\n`; a `\r` right before a `\n`
      belongs to the separator, so it is dropped from every piece but the last. */
  function SplitLines(text: string): (lines: seq<string>)
    ensures |lines| > 0
    ensures forall i :: 0 <= i < |lines| ==> '\n' !in lines[i]
  {
    LinesOf(SplitOn(text, '\n'))
  }

  /** The pieces between the `\n`s, each but the last less a `\r` that ends it. */
  function LinesOf(pieces: seq<string>): (lines: seq<string>)
    ensures |lines| == |pieces|
    ensures forall i :: 0 <= i < |lines| ==> lines[i] <= pieces[i]
  {
    seq(|pieces|, i requires 0 <= i < |pieces| =>
      if i < |pieces| - 1 then DropCarriageReturn(pieces[i]) else pieces[i])
  }

  lemma LinesOfCons(piece: string, pieces: seq<string>)
    requires pieces != []
    ensures LinesOf([piece] + pieces) == [DropCarriageReturn(piece)] + LinesOf(pieces)
  {
    var l, r := LinesOf([piece] + pieces), [DropCarriageReturn(piece)] + LinesOf(pieces);
    assert |l| == |r|;
    forall i | 0 < i < |l| ensures l[i] == r[i] {
      assert ([piece] + pieces)[i] == pieces[i - 1];
    }
  }

  /** A text without a line break is one line. */
  lemma SplitLinesSingle(a: string)
    requires '\n' !in a
    ensures SplitLines(a) == [a]
  {
    SplitOnSingle(a, '\n');
  }

  /** The first line is the text before the first `\n`, less a `\r` that ends
      it; the other lines are those of the text after the `\n`. */
  lemma SplitLinesStep(a: string, b: string)
    requires '\n' !in a
    ensures SplitLines(a + "\n" + b) == [DropCarriageReturn(a)] + SplitLines(b)
  {
    SplitOnStep(a, '\n', b);
    LinesOfCons(a, SplitOn(b, '\n'));
  }

  /** `\r\n` and `\n` separate lines alike. */
  lemma CrLfSplitsLikeLf(a: string, b: string)
    requires '\n' !in a && (a == [] || a[|a| - 1] != '\r')
    ensures SplitLines(a + "\r\n" + b) == SplitLines(a + "\n" + b) == [a] + SplitLines(b)
  {
    var ar := a + "\r";
    var x, y := a + "\r\n" + b, ar + "\n" + b;
    assert |x| == |y|;
    forall i | 0 <= i < |x| ensures x[i] == y[i] {
    }
    assert x == y;
    assert '\n' !in ar;
    SplitLinesStep(a, b);
    SplitLinesStep(ar, b);
    assert ar[..|ar| - 1] == a;
  }

  predicate IsBlank(line: string) {
    Trim(line) == ""
  }

  /** The event record of one line: none for a blank line, otherwise the line
      verbatim followed by a blank line. */
  function Frame(line: string): seq<string> {
    if IsBlank(line) then [] else [line + "\n\n"]
  }

  /** The event records of the lines, in order. */
  function Frames(lines: seq<string>): seq<string> {
    if lines == [] then [] else Frame(lines[0]) + Frames(lines[1..])
  }

  /** Framing works line by line: the frames of two blocks of lines are the frames
      of the first followed by the frames of the second. */
  lemma {:induction false} FramesAppend(a: seq<string>, b: seq<string>)
    ensures Frames(a + b) == Frames(a) + Frames(b)
  {
    if a == [] {
      assert a + b == b;
    } else {
      assert (a + b)[0] == a[0] && (a + b)[1..] == a[1..] + b;
      FramesAppend(a[1..], b);
    }
  }

  /** Extending the lines by one adds that line's frame, if it has one. */
  lemma FramesStep(lines: seq<string>, i: nat)
    requires i < |lines|
    ensures Frames(lines[..i + 1])
         == Frames(lines[..i]) + Frame(lines[i])
  {
    assert lines[..i + 1] == lines[..i] + [lines[i]];
    FramesAppend(lines[..i], [lines[i]]);
    FramesSingle(lines[i]);
  }

  lemma FramesSingle(line: string)
    ensures Frames([line]) == Frame(line)
  {
    assert [line][1..] == [];
  }

  /** There are no frames exactly when every line is blank. */
  lemma {:induction false} FramesEmptyIff(lines: seq<string>)
    ensures Frames(lines) == [] <==> forall i :: 0 <= i < |lines| ==> IsBlank(lines[i])
  {
    if lines != [] {
      var rest := lines[1..];
      FramesEmptyIff(rest);
      assert Frames(lines) == [] <==> IsBlank(lines[0]) && Frames(rest) == [];
      if forall i :: 0 <= i < |lines| ==> IsBlank(lines[i]) {
        forall j | 0 <= j < |rest| ensures IsBlank(rest[j]) {
          assert rest[j] == lines[j + 1];
        }
      }
      if IsBlank(lines[0]) && Frames(rest) == [] {
        forall i | 0 <= i < |lines| ensures IsBlank(lines[i]) {
          if i > 0 {
            assert lines[i] == rest[i - 1];
          }
        }
      }
    }
  }

  /** Every frame is a non-blank line plus the terminator, and every non-blank line
      gives a frame. */
  lemma {:induction false} FramesAreLines(lines: seq<string>, e: string)
    ensures e in Frames(lines) <==> exists l :: l in lines && !IsBlank(l) && e == l + "\n\n"
  {
    if lines != [] {
      FramesAreLines(lines[1..], e);
      assert lines == [lines[0]] + lines[1..];
      assert forall l :: l in lines <==> l == lines[0] || l in lines[1..];
    }
  }

  /** Number of non-blank lines. */
  function CountNonBlank(lines: seq<string>): nat {
    if lines == [] then 0 else (if IsBlank(lines[0]) then 0 else 1) + CountNonBlank(lines[1..])
  }

  lemma {:induction false} FramesCount(lines: seq<string>)
    ensures |Frames(lines)| == CountNonBlank(lines)
  {
    if lines != [] {
      FramesCount(lines[1..]);
    }
  }

  /** The body text: `null`/`undefined` read as the empty string. */
  function BodyText(raw: Option<string>): string {
    if raw.None? then "" else raw.value
  }

  /** What `buildSseEventsFromResponse` returns: the frames of the body's lines,
      or the single keepalive comment when there are none; never empty. */
  function SseEvents(raw: Option<string>): (events: seq<string>)
    ensures |events| > 0
    ensures Frames(SplitLines(BodyText(raw))) != [] ==> events == Frames(SplitLines(BodyText(raw)))
    ensures Frames(SplitLines(BodyText(raw))) == [] ==> events == [KEEPALIVE]
  {
    var frames := Frames(SplitLines(BodyText(raw)));
    if frames == [] then [KEEPALIVE] else frames
  }

  /** A missing body and an empty one both give the keepalive comment alone. */
  lemma MissingBodyIsKeepalive()
    ensures SseEvents(None) == [KEEPALIVE]
    ensures SseEvents(Some("")) == [KEEPALIVE]
  {
    var lines := SplitLines("");
    assert SplitOn("", '\n') == [""];
    assert lines == [""];
    assert IsBlank("");
    assert Frames(lines) == [] by {
      assert lines[1..] == [];
    }
  }

  /** The `for` loop of `buildSseEventsFromResponse`: the record of each
      non-blank line is pushed, in order. */
  method PushFrames(lines: seq<string>) returns (events: seq<string>)
    ensures events == Frames(lines)
  {
    events := [];
    for i := 0 to |lines|
      invariant events == Frames(lines[..i])
    {
      FramesStep(lines, i);
      if Trim(lines[i]) != "" {
        events := events + [lines[i] + "\n\n"];
      }
    }
    assert lines[..|lines|] == lines;
  }

  /** `buildSseEventsFromResponse`: the records of the body's lines, or the
      keepalive comment if the loop pushed nothing. */
  method BuildSseEventsFromResponse(raw: Option<string>) returns (events: seq<string>)
    ensures events == SseEvents(raw)
    ensures |events| > 0
  {
    var text := if raw.None? then "" else raw.value;
    events := PushFrames(SplitLines(text));
    if |events| == 0 {
      return [KEEPALIVE];
    }
  }
}
