/** The live feed on the wire: the server's frame printer and the browser's incremental parser
    (the event stream format of section 9.2 of the WHATWG HTML Living Standard). */
module Sse {
  import opened Prelude
  import opened Counting

  const FRAME_END: string := "\n\n"
  const LINE_END: string := "\n"
  const DATA: string := "data: "

  /* ---------- splitting and joining ---------- */

  /** JavaScript's `split`: leftmost matches that do not overlap; never empty. */
  function Split(s: string, sep: string): (parts: seq<string>)
    requires |sep| > 0
    ensures |parts| >= 1
  {
    if |s| < |sep| then [s]
    else if sep <= s then [""] + Split(s[|sep|..], sep)
    else
      Grown(s[0], Split(s[1..], sep))
  }

  function Last<T>(xs: seq<T>): T
    requires |xs| > 0
  {
    xs[|xs| - 1]
  }

  function Init<T>(xs: seq<T>): seq<T>
    requires |xs| > 0
  {
    xs[..|xs| - 1]
  }

  function Join(pieces: seq<string>): string {
    if pieces == [] then "" else pieces[0] + Join(pieces[1..])
  }

  lemma {:induction false} JoinSnoc(pieces: seq<string>, p: string)
    ensures Join(pieces + [p]) == Join(pieces) + p
  {
    if pieces == [] {
      assert Join([p]) == p + Join([]);
    } else {
      assert (pieces + [p])[1..] == pieces[1..] + [p];
      JoinSnoc(pieces[1..], p);
    }
  }

  lemma {:induction false} UnsplitIsWhole(s: string, sep: string)
    requires |sep| > 0 && |Split(s, sep)| == 1
    ensures Split(s, sep) == [s]
  {
    if |s| >= |sep| && !(sep <= s) {
      UnsplitIsWhole(s[1..], sep);
      assert [s[0]] + s[1..] == s;
    }
  }

  function JoinWith(parts: seq<string>, sep: string): string
    requires |parts| >= 1
  {
    if |parts| == 1 then parts[0] else parts[0] + sep + JoinWith(parts[1..], sep)
  }

  /** Splitting loses nothing: the parts with the separator between them are the text. */
  lemma {:induction false} SplitJoins(s: string, sep: string)
    requires |sep| > 0
    ensures JoinWith(Split(s, sep), sep) == s
  {
    if |s| >= |sep| {
      if sep <= s {
        SplitJoins(s[|sep|..], sep);
        assert s == sep + s[|sep|..];
      } else {
        SplitJoins(s[1..], sep);
        GrownJoins(s[0], Split(s[1..], sep), sep);
        assert s == [s[0]] + s[1..];
      }
    }
  }

  lemma GrownJoins(c: char, parts: seq<string>, sep: string)
    requires |parts| >= 1
    ensures JoinWith(Grown(c, parts), sep) == [c] + JoinWith(parts, sep)
  {
    if |parts| > 1 {
      assert Grown(c, parts)[1..] == parts[1..];
      assert [c] + parts[0] + sep + JoinWith(parts[1..], sep) == [c] + (parts[0] + sep + JoinWith(parts[1..], sep));
    }
  }

  /** What follows can only continue the last part. */
  lemma {:induction false} SplitAppend(x: string, y: string, sep: string)
    requires |sep| > 0
    ensures Split(x + y, sep) == Init(Split(x, sep)) + Split(Last(Split(x, sep)) + y, sep)
    decreases |x|
  {
    if |Split(x, sep)| == 1 {
      UnsplitIsWhole(x, sep);
    } else {
      assert |x| >= |sep| && (x + y)[..|sep|] == x[..|sep|];
      if sep <= x {
        assert (x + y)[|sep|..] == x[|sep|..] + y;
        SplitAppend(x[|sep|..], y, sep);
        PushFront("", Split(x[|sep|..], sep), Split(Last(Split(x[|sep|..], sep)) + y, sep));
      } else {
        assert (x + y)[1..] == x[1..] + y;
        SplitAppend(x[1..], y, sep);
        GrowFront(x[0], Split(x[1..], sep), Split(Last(Split(x[1..], sep)) + y, sep));
      }
    }
  }

  lemma PushFront(first: string, parts: seq<string>, more: seq<string>)
    requires |parts| >= 1
    ensures [first] + (Init(parts) + more) == Init([first] + parts) + more && Last([first] + parts) == Last(parts)
  {
  }

  function Grown(c: char, parts: seq<string>): seq<string>
    requires |parts| >= 1
  {
    [[c] + parts[0]] + parts[1..]
  }

  lemma GrowFront(c: char, parts: seq<string>, more: seq<string>)
    requires |parts| >= 2
    ensures Grown(c, Init(parts) + more) == Init(Grown(c, parts)) + more && Last(Grown(c, parts)) == Last(parts)
  {
  }

  /* ---------- the parser ---------- */

  /** The strings handed to `JSON.parse` from the lines of one frame. */
  function DataOf(lines: seq<string>): seq<string> {
    if lines == [] then []
    else (if DATA <= lines[0] then [lines[0][|DATA|..]] else []) + DataOf(lines[1..])
  }

  function EventsOf(frames: seq<string>): seq<string> {
    if frames == [] then [] else DataOf(Split(frames[0], LINE_END)) + EventsOf(frames[1..])
  }

  /** What a stream means: the data of every frame that is complete. */
  function Parse(stream: string): seq<string> {
    EventsOf(Init(Split(stream, FRAME_END)))
  }

  lemma {:induction false} DataOfSnoc(lines: seq<string>, line: string)
    ensures DataOf(lines + [line]) == DataOf(lines) + DataOf([line])
  {
    if lines == [] {
      assert lines + [line] == [line];
    } else {
      assert (lines + [line])[1..] == lines[1..] + [line];
      DataOfSnoc(lines[1..], line);
    }
  }

  lemma {:induction false} EventsOfConcat(xs: seq<string>, ys: seq<string>)
    ensures EventsOf(xs + ys) == EventsOf(xs) + EventsOf(ys)
  {
    if xs == [] {
      assert xs + ys == ys;
    } else {
      assert (xs + ys)[1..] == xs[1..] + ys;
      EventsOfConcat(xs[1..], ys);
    }
  }

  function DataLine(line: string): Option<string> {
    if |line| >= 6 && line[..6] == "data: " then Some(line[6..]) else None
  }

  /** What follows the field name of each data line is data, and nothing else is. */
  lemma {:induction false} DataOfMeaning(lines: seq<string>)
    ensures DataOf(lines) == Picked(lines, DataLine)
  {
    if lines != [] {
      DataOfMeaning(lines[1..]);
      assert DATA <= lines[0] <==> DataLine(lines[0]).Some?;
    }
  }

  /** A frame that fails to parse is skipped. */
  function DecodedOne<T>(parse: string -> Option<T>, raw: string): seq<T> {
    match parse(raw)
    case Some(event) => [event]
    case None => []
  }

  function Decoded<T>(parse: string -> Option<T>, raws: seq<string>): seq<T> {
    if raws == [] then [] else DecodedOne(parse, raws[0]) + Decoded(parse, raws[1..])
  }

  lemma {:induction false} DecodedConcat<T>(parse: string -> Option<T>, xs: seq<string>, ys: seq<string>)
    ensures Decoded(parse, xs + ys) == Decoded(parse, xs) + Decoded(parse, ys)
  {
    if xs == [] {
      assert xs + ys == ys;
    } else {
      assert (xs + ys)[1..] == xs[1..] + ys && (xs + ys)[0] == xs[0];
      DecodedConcat(parse, xs[1..], ys);
      Associative(DecodedOne(parse, xs[0]), Decoded(parse, xs[1..]), Decoded(parse, ys));
    }
  }

  lemma {:induction false} DecodedIsPicked<T>(parse: string -> Option<T>, raws: seq<string>)
    ensures Decoded(parse, raws) == Picked(raws, parse)
  {
    if raws != [] { DecodedIsPicked(parse, raws[1..]); }
  }

  /** Every text that parses is delivered, once and in its place; the others are skipped. */
  lemma DecodedMeaning<T>(parse: string -> Option<T>, raws: seq<string>)
    ensures |Decoded(parse, raws)| == Count(raws, Has(parse))
    ensures forall k | 0 <= k < |raws| && parse(raws[k]).Some? ::
              Count(raws[..k], Has(parse)) < |Decoded(parse, raws)|
              && Decoded(parse, raws)[Count(raws[..k], Has(parse))] == parse(raws[k]).value
  {
    DecodedIsPicked(parse, raws);
    PickedMeaning(raws, parse);
  }

  /** The innermost loop of `streamLiveFeed`: the lines of one frame. */
  method ReadLines<T>(parse: string -> Option<T>, lines: seq<string>) returns (events: seq<T>)
    ensures events == Decoded(parse, DataOf(lines))
  {
    events := [];
    for k := 0 to |lines|
      invariant events == Decoded(parse, DataOf(lines[..k]))
    {
      DataOfSnoc(lines[..k], lines[k]);
      assert lines[..k + 1] == lines[..k] + [lines[k]];
      DecodedConcat(parse, DataOf(lines[..k]), DataOf([lines[k]]));
      if DATA <= lines[k] {
        var raw := lines[k][|DATA|..];
        assert DataOf([lines[k]]) == [raw];
        assert Decoded(parse, [raw]) == DecodedOne(parse, raw);
        match parse(raw) {
          case Some(event) => events := events + [event];
          case None =>
        }
      } else {
        assert DataOf([lines[k]]) == [];
      }
    }
    assert lines[..|lines|] == lines;
  }

  /** One batch of complete frames. */
  method ReadFrames<T>(parse: string -> Option<T>, frames: seq<string>) returns (events: seq<T>)
    ensures events == Decoded(parse, EventsOf(frames))
  {
    events := [];
    for i := 0 to |frames|
      invariant events == Decoded(parse, EventsOf(frames[..i]))
    {
      var lines := Split(frames[i], LINE_END);
      var more := ReadLines(parse, lines);
      events := events + more;

      assert frames[..i + 1] == frames[..i] + [frames[i]];
      EventsOfConcat(frames[..i], [frames[i]]);
      assert EventsOf([frames[i]]) == DataOf(lines);
      DecodedConcat(parse, EventsOf(frames[..i]), DataOf(lines));
    }
    assert frames[..|frames|] == frames;
  }

  /** What one more piece of the stream adds. */
  lemma NextPiece<T>(parse: string -> Option<T>, seen: string, piece: string)
    ensures var chunks := Split(Last(Split(seen, FRAME_END)) + piece, FRAME_END);
      && Last(Split(seen + piece, FRAME_END)) == Last(chunks)
      && Parse(seen + piece) == Parse(seen) + EventsOf(Init(chunks))
      && Decoded(parse, Parse(seen + piece)) == Decoded(parse, Parse(seen)) + Decoded(parse, EventsOf(Init(chunks)))
  {
    var before, chunks := Init(Split(seen, FRAME_END)), Split(Last(Split(seen, FRAME_END)) + piece, FRAME_END);
    SplitAppend(seen, piece, FRAME_END);
    assert Init(before + chunks) == before + Init(chunks);
    EventsOfConcat(before, Init(chunks));
    DecodedConcat(parse, EventsOf(before), EventsOf(Init(chunks)));
  }

  /** The read loop of `streamLiveFeed`: however the network cuts the stream, the
      events delivered are the meaning of the whole. */
  method Consume<T>(parse: string -> Option<T>, pieces: seq<string>) returns (events: seq<T>, buffer: string)
    ensures events == Decoded(parse, Parse(Join(pieces)))
    ensures buffer == Last(Split(Join(pieces), FRAME_END))
  {
    events, buffer := [], "";
    for i := 0 to |pieces|
      invariant events == Decoded(parse, Parse(Join(pieces[..i])))
      invariant buffer == Last(Split(Join(pieces[..i]), FRAME_END))
    {
      ghost var seen := Join(pieces[..i]);
      assert pieces[..i + 1] == pieces[..i] + [pieces[i]];
      JoinSnoc(pieces[..i], pieces[i]);
      NextPiece(parse, seen, pieces[i]);

      var chunks := Split(buffer + pieces[i], FRAME_END);
      buffer := Last(chunks);
      var more := ReadFrames(parse, Init(chunks));
      events := events + more;
    }
    assert pieces[..|pieces|] == pieces;
  }

  /* ---------- the printer ---------- */

  /** What one wait on the subscription gives: nothing in time, an event (with its display
      fields, or dropped), or the end of the source. */
  datatype Pull = Timeout | Event(enriched: Option<string>) | End

  function Frame(p: Pull): string {
    match p
    case Timeout => ": ping" + FRAME_END
    case Event(Some(data)) => if data == "" then "" else DATA + data + FRAME_END
    case _ => ""
  }

  function Frames(pulls: seq<Pull>): string {
    if pulls == [] || pulls[0].End? then "" else Frame(pulls[0]) + Frames(pulls[1..])
  }

  function Printed(pulls: seq<Pull>): string {
    ": connected" + FRAME_END + Frames(pulls)
  }

  /** The events that were meant to reach the browser. */
  function Payloads(pulls: seq<Pull>): seq<string> {
    if pulls == [] || pulls[0].End? then []
    else
      (if pulls[0].Event? && pulls[0].enriched.Some? && pulls[0].enriched.value != ""
       then [pulls[0].enriched.value] else [])
      + Payloads(pulls[1..])
  }

  /** What a pull has for the browser. */
  function Payload(p: Pull): Option<string> {
    if p.Event? && p.enriched.Some? && p.enriched.value != "" then Some(p.enriched.value) else None
  }

  /** Up to the end of the source every event with something to show is a payload, once and in its place. */
  lemma {:induction false} PayloadsMeaning(pulls: seq<Pull>, end: nat)
    requires end <= |pulls| && (end < |pulls| ==> pulls[end].End?)
    requires forall i | 0 <= i < end :: !pulls[i].End?
    ensures Payloads(pulls) == Picked(pulls[..end], Payload)
    decreases end
  {
    if end > 0 {
      PayloadsMeaning(pulls[1..], end - 1);
      assert pulls[..end][1..] == pulls[1..][..end - 1];
    }
  }

  lemma FramesStep(done: string, pulls: seq<Pull>, i: nat)
    requires i < |pulls|
    ensures done + Frames(pulls[i..])
            == if pulls[i].End? then done else (done + Frame(pulls[i])) + Frames(pulls[i + 1..])
  {
    assert pulls[i..][1..] == pulls[i + 1..];
    Associative(done, Frame(pulls[i]), Frames(pulls[i + 1..]));
  }

  /** One round of the generator: a heartbeat, an event, or nothing for an event that was dropped. */
  method YieldNext(p: Pull, yielded: seq<string>) returns (more: seq<string>)
    ensures Join(more) == Join(yielded) + Frame(p)
  {
    more := yielded;
    match p
    case Timeout =>
      JoinSnoc(yielded, ": ping" + FRAME_END);
      more := more + [": ping" + FRAME_END];
    case Event(Some(data)) =>
      if data != "" {
        JoinSnoc(yielded, DATA + data + FRAME_END);
        more := more + [DATA + data + FRAME_END];
      }
    case _ =>
  }

  /** The generator, with everything it yields. */
  method Generate(pulls: seq<Pull>) returns (yielded: seq<string>)
    ensures Join(yielded) == Printed(pulls)
  {
    yielded := [] + [": connected" + FRAME_END];
    JoinSnoc([], ": connected" + FRAME_END);
    var i := 0;
    ghost var all := Printed(pulls);
    assert pulls[0..] == pulls;
    while i < |pulls| && !pulls[i].End?
      invariant i <= |pulls|
      invariant Join(yielded) + Frames(pulls[i..]) == all
    {
      FramesStep(Join(yielded), pulls, i);
      yielded := YieldNext(pulls[i], yielded);
      i := i + 1;
    }
    if i < |pulls| { FramesStep(Join(yielded), pulls, i); }
  }

  /* ---------- there and back ---------- */

  predicate OneLine(s: string) { '\n' !in s }

  lemma {:induction false} SplitFrame(body: string, rest: string)
    requires OneLine(body)
    ensures Split(body + FRAME_END + rest, FRAME_END) == [body] + Split(rest, FRAME_END)
  {
    var s := body + FRAME_END + rest;
    if body == "" {
      assert s == FRAME_END + rest;
      assert s[|FRAME_END|..] == rest;
    } else {
      assert s[0] == body[0] && FRAME_END[0] == '\n' && |s| >= |FRAME_END|;
      assert s[1..] == body[1..] + FRAME_END + rest;
      SplitFrame(body[1..], rest);
      assert [s[0]] + body[1..] == body;
    }
  }

  lemma {:induction false} OneLineUnsplit(s: string)
    requires OneLine(s)
    ensures Split(s, LINE_END) == [s]
  {
    if s != "" {
      assert LINE_END[0] == '\n' && s[0] != '\n';
      OneLineUnsplit(s[1..]);
      assert [s[0]] + s[1..] == s;
    }
  }

  /** A frame of one line in front of a stream contributes its data, and nothing else changes. */
  lemma ParseFrame(body: string, rest: string)
    requires OneLine(body)
    ensures Parse(body + FRAME_END + rest) == DataOf([body]) + Parse(rest)
  {
    SplitFrame(body, rest);
    OneLineUnsplit(body);
    var parts := Split(rest, FRAME_END);
    assert Init([body] + parts) == [body] + Init(parts);
    EventsOfConcat([body], Init(parts));
    assert EventsOf([body]) == DataOf([body]) + EventsOf([]);
  }

  lemma CommentHasNoData(line: string)
    requires line != "" && line[0] == ':'
    ensures DataOf([line]) == []
  {
    assert DATA[0] == 'd' && [line][0] == line && [line][1..] == [];
  }

  /** The data of one pull in front of a stream. */
  lemma ParsePull(p: Pull, rest: string)
    requires !p.End? && forall d | d in Payloads([p]) :: OneLine(d)
    ensures Parse(Frame(p) + rest) == Payloads([p]) + Parse(rest)
  {
    match p
    case Timeout =>
      CommentHasNoData(": ping");
      ParseFrame(": ping", rest);
    case Event(Some(data)) =>
      if data == "" {
        assert Frame(p) + rest == rest;
      } else {
        assert data in Payloads([p]);
        ParseFrame(DATA + data, rest);
        assert (DATA + data)[|DATA|..] == data;
      }
    case Event(None) => assert Frame(p) + rest == rest;
  }

  lemma {:induction false} ParseFrames(pulls: seq<Pull>)
    requires forall d | d in Payloads(pulls) :: OneLine(d)
    ensures Parse(Frames(pulls)) == Payloads(pulls)
  {
    if pulls == [] || pulls[0].End? {
      assert Init(Split("", FRAME_END)) == [];
    } else {
      assert Payloads(pulls) == Payloads([pulls[0]]) + Payloads(pulls[1..]) by {
        assert [pulls[0]][1..] == [];
      }
      ParsePull(pulls[0], Frames(pulls[1..]));
      ParseFrames(pulls[1..]);
    }
  }

  lemma {:induction false} SplitLinesAreOneLine(s: string)
    ensures forall line | line in Split(s, LINE_END) :: OneLine(line)
  {
    if s != "" {
      assert LINE_END <= s <==> s[0] == '\n';
      SplitLinesAreOneLine(s[1..]);
      var rest := Split(s[1..], LINE_END);
      assert rest[0] in rest;
      assert forall line | line in rest[1..] :: line in rest;
    }
  }

  lemma {:induction false} DataAreOneLine(lines: seq<string>)
    requires forall line | line in lines :: OneLine(line)
    ensures forall d | d in DataOf(lines) :: OneLine(d)
  {
    if lines != [] {
      assert lines[0] in lines;
      assert forall line | line in lines[1..] :: line in lines;
      DataAreOneLine(lines[1..]);
      assert DATA <= lines[0] ==> forall c | c in lines[0][|DATA|..] :: c in lines[0];
    }
  }

  lemma {:induction false} EventsAreOneLine(frames: seq<string>)
    ensures forall d | d in EventsOf(frames) :: OneLine(d)
  {
    if frames != [] {
      SplitLinesAreOneLine(frames[0]);
      DataAreOneLine(Split(frames[0], LINE_END));
      EventsAreOneLine(frames[1..]);
    }
  }

  /** The feed round trip: the whole stream means exactly the payloads, in order, if and only if
      no payload holds a line break. */
  lemma RoundTripIff(pulls: seq<Pull>)
    ensures Parse(Printed(pulls)) == Payloads(pulls) <==> forall p | p in Payloads(pulls) :: OneLine(p)
  {
    if forall p | p in Payloads(pulls) :: OneLine(p) {
      assert Printed(pulls) == ": connected" + FRAME_END + Frames(pulls);
      ParseFrame(": connected", Frames(pulls));
      CommentHasNoData(": connected");
      ParseFrames(pulls);
    } else {
      EventsAreOneLine(Init(Split(Printed(pulls), FRAME_END)));
    }
  }

  lemma ParseIsMonotone(x: string, y: string)
    ensures Parse(x) <= Parse(x + y)
  {
    NextPiece(raw => Some(raw), x, y);
  }

  lemma ParseOfPrefix(stream: string, k: nat)
    requires k <= |stream|
    ensures Parse(stream[..k]) <= Parse(stream)
  {
    assert stream[..k] + stream[k..] == stream;
    ParseIsMonotone(stream[..k], stream[k..]);
  }

  /** A stream that breaks off anywhere yields the first so many payloads. */
  lemma TruncationYieldsPrefix(pulls: seq<Pull>, k: nat)
    requires k <= |Printed(pulls)| && forall p | p in Payloads(pulls) :: OneLine(p)
    ensures Parse(Printed(pulls)[..k]) <= Payloads(pulls)
  {
    RoundTripIff(pulls);
    ParseOfPrefix(Printed(pulls), k);
  }

  lemma AllDelivered<T>(parse: string -> Option<T>, payloads: seq<string>)
    requires forall p | p in payloads :: parse(p).Some?
    ensures var events := Decoded(parse, payloads);
      |events| == |payloads| && forall k | 0 <= k < |events| :: Some(events[k]) == parse(payloads[k])
  {
    DecodedIsPicked(parse, payloads);
    PickedAll(payloads, parse);
  }

  /** What came of the payloads is decoded to what comes of the first of them. */
  lemma DecodedPrefix<T>(parse: string -> Option<T>, got: seq<string>, payloads: seq<string>)
    requires got <= payloads
    ensures Decoded(parse, got) <= Decoded(parse, payloads)
  {
    assert payloads == got + payloads[|got|..];
    DecodedConcat(parse, got, payloads[|got|..]);
  }

  /** Server and browser together: whatever the pieces, what `Consume` delivers is the decoded
      payloads in order when all of the stream arrived, and some first ones otherwise. */
  lemma FeedDelivers<T>(parse: string -> Option<T>, pulls: seq<Pull>, pieces: seq<string>)
    requires Join(pieces) <= Printed(pulls) && forall p | p in Payloads(pulls) :: OneLine(p)
    ensures Decoded(parse, Parse(Join(pieces))) <= Decoded(parse, Payloads(pulls))
    ensures Join(pieces) == Printed(pulls) ==> Parse(Join(pieces)) == Payloads(pulls)
    ensures Join(pieces) == Printed(pulls) && (forall p | p in Payloads(pulls) :: parse(p).Some?) ==>
              var events := Decoded(parse, Parse(Join(pieces)));
              && |events| == |Payloads(pulls)|
              && forall k | 0 <= k < |events| :: Some(events[k]) == parse(Payloads(pulls)[k])
  {
    if forall p | p in Payloads(pulls) :: parse(p).Some? { AllDelivered(parse, Payloads(pulls)); }
    RoundTripIff(pulls);
    TruncationYieldsPrefix(pulls, |Join(pieces)|);
    assert Printed(pulls)[..|Join(pieces)|] == Join(pieces);
    DecodedPrefix(parse, Parse(Join(pieces)), Payloads(pulls));
  }
}
