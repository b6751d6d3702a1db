/**
 * Server-sent events: the frames the server writes and the incremental parser that reads them.
 * JSON is an abstract printer and parser.
 */
module Sse {
  import opened Text

  // ----- reading -----

  predicate BlankAt(b: string, i: int) { 0 <= i && i + 2 <= |b| && b[i] == '\n' && b[i + 1] == '\n' }

  /** `indexOf("\n\n")` from `from` on; |b| if there is none. */
  function FrameEnd(b: string, from: nat): (r: nat)
    requires from <= |b|
    ensures from <= r <= |b|
    ensures r < |b| ==> BlankAt(b, r)
    ensures forall i :: from <= i < r ==> !BlankAt(b, i)
    decreases |b| - from
  {
    if from == |b| || BlankAt(b, from) then from else FrameEnd(b, from + 1)
  }

  /** `split("\n")`. */
  function Lines(raw: string): seq<string> {
    if raw == "" then [""]
    else
      var rest := Lines(raw[1..]);
      if raw[0] == '\n' then [""] + rest else if rest == [] then [[raw[0]]] else [[raw[0]] + rest[0]] + rest[1..]
  }

  predicate IsData(line: string) { |line| >= 5 && line[..5] == "data:" }

  function DataOf(lines: seq<string>): seq<string> {
    if lines == [] then []
    else (if IsData(lines[0]) then [TrimSpace(lines[0][5..])] else []) + DataOf(lines[1..])
  }

  function Joined(lines: seq<string>): string {
    if lines == [] then "" else if |lines| == 1 then lines[0] else lines[0] + "\n" + Joined(lines[1..])
  }

  /** What one frame carries: nothing for a heartbeat or a malformed payload. */
  function Decode<E>(parse: string -> Option<E>, raw: string): seq<E> {
    var data := DataOf(Lines(raw));
    if data == [] then []
    else
      var e := parse(Joined(data));
      if e.Some? then [e.value] else []
  }

  /** The events of every complete frame of the buffer. */
  function Parsed<E>(parse: string -> Option<E>, b: string): seq<E>
    decreases |b|
  {
    var i := FrameEnd(b, 0);
    if i == |b| then [] else Decode(parse, b[..i]) + Parsed(parse, b[i + 2..])
  }

  /** The incomplete frame at the end. */
  function Rest(b: string): string
    decreases |b|
  {
    var i := FrameEnd(b, 0);
    if i == |b| then b else Rest(b[i + 2..])
  }

  class SseParser<E> {
    const parse: string -> Option<E>
    var buffer: string

    constructor (parse: string -> Option<E>)
      ensures buffer == "" && this.parse == parse
    {
      this.parse, buffer := parse, "";
    }

    method Push(chunk: string) returns (events: seq<E>)
      modifies this
      ensures events == Parsed(parse, old(buffer) + chunk) && buffer == Rest(old(buffer) + chunk)
    {
      hide Parsed, Rest, Decode;
      buffer := buffer + chunk;
      ghost var whole := buffer;
      events := [];
      var idx := FrameEnd(buffer, 0);
      while idx != |buffer|
        invariant idx == FrameEnd(buffer, 0)
        invariant events + Parsed(parse, buffer) == Parsed(parse, whole)
        invariant Rest(buffer) == Rest(whole)
        decreases |buffer|
      {
        ParsedStep(parse, buffer);
        var raw := buffer[..idx];
        events := events + Decode(parse, raw);
        buffer := buffer[idx + 2..];
        idx := FrameEnd(buffer, 0);
      }
      ParsedDone(parse, buffer);
    }
  }

  // ----- chunks do not matter -----

  lemma FirstBlank(b: string, i: nat)
    requires BlankAt(b, i) && forall k :: 0 <= k < i ==> !BlankAt(b, k)
    ensures FrameEnd(b, 0) == i
  {}

  lemma FrameEndGrows(x: string, y: string)
    requires FrameEnd(x, 0) < |x|
    ensures FrameEnd(x + y, 0) == FrameEnd(x, 0)
  {
    var i := FrameEnd(x, 0);
    assert forall k :: 0 <= k <= i ==> BlankAt(x + y, k) == BlankAt(x, k);
    FirstBlank(x + y, i);
  }

  /** Parsing `x` and then `y` is parsing `x + y`. */
  lemma {:induction false} ParsedConcat<E>(parse: string -> Option<E>, x: string, y: string)
    ensures Parsed(parse, x + y) == Parsed(parse, x) + Parsed(parse, Rest(x) + y)
    ensures Rest(x + y) == Rest(Rest(x) + y)
    decreases |x|
  {
    hide Decode, Parsed, Rest, FrameEnd;
    var i := FrameEnd(x, 0);
    if i < |x| {
      FrameEndGrows(x, y);
      var z := x[i + 2..];
      assert (x + y)[..i] == x[..i] && (x + y)[i + 2..] == z + y;
      ParsedConcat(parse, z, y);
      ParsedStep(parse, x);
      ParsedStep(parse, x + y);
      Regroup(Decode(parse, x[..i]), Parsed(parse, z), Parsed(parse, Rest(z) + y));
    } else {
      ParsedDone(parse, x);
      assert [] + Parsed(parse, x + y) == Parsed(parse, x + y);
    }
  }

  lemma Regroup<E>(a: seq<E>, b: seq<E>, c: seq<E>)
    ensures a + (b + c) == (a + b) + c
  {}

  lemma ParsedStep<E>(parse: string -> Option<E>, b: string)
    requires FrameEnd(b, 0) < |b|
    ensures var i := FrameEnd(b, 0);
            Parsed(parse, b) == Decode(parse, b[..i]) + Parsed(parse, b[i + 2..]) && Rest(b) == Rest(b[i + 2..])
  {}

  lemma ParsedDone<E>(parse: string -> Option<E>, b: string)
    requires FrameEnd(b, 0) == |b|
    ensures Parsed(parse, b) == [] && Rest(b) == b
  {}

  /** What a parser yields when it is fed `chunks` one after the other, starting from `buffer`. */
  function Feed<E>(parse: string -> Option<E>, buffer: string, chunks: seq<string>): seq<E>
    decreases |chunks|
  {
    if chunks == [] then []
    else Parsed(parse, buffer + chunks[0]) + Feed(parse, Rest(buffer + chunks[0]), chunks[1..])
  }

  function Concat(chunks: seq<string>): string {
    if chunks == [] then "" else chunks[0] + Concat(chunks[1..])
  }

  lemma {:induction false} RestIsParsed<E>(parse: string -> Option<E>, b: string)
    ensures Parsed(parse, Rest(b)) == []
    decreases |b|
  {
    var i := FrameEnd(b, 0);
    if i < |b| { RestIsParsed(parse, b[i + 2..]); }
  }

  /** However the text is split into chunks, the events are those of the whole text. */
  lemma {:induction false} ChunksDoNotMatter<E>(parse: string -> Option<E>, buffer: string, chunks: seq<string>)
    requires Parsed(parse, buffer) == []
    ensures Feed(parse, buffer, chunks) == Parsed(parse, buffer + Concat(chunks))
    decreases |chunks|
  {
    hide Parsed, Rest;
    if chunks == [] {
      assert buffer + "" == buffer;
    } else {
      var next := buffer + chunks[0];
      ParsedConcat(parse, next, Concat(chunks[1..]));
      RestIsParsed(parse, next);
      ChunksDoNotMatter(parse, Rest(next), chunks[1..]);
      assert buffer + Concat(chunks) == next + Concat(chunks[1..]);
    }
  }

  // ----- writing -----

  datatype Codec<!E> = Codec(show: E -> string, parse: string -> Option<E>)

  ghost predicate NoNewline(s: string) { forall i :: 0 <= i < |s| ==> s[i] != '\n' }

  /** JSON on one line: no raw newline, no surrounding white space, and parsing undoes printing. */
  ghost predicate OneLineJson<E(!new)>(c: Codec<E>) {
    forall e :: var p := c.show(e);
      NoNewline(p) && p != "" && !IsSpace(p[0]) && !IsSpace(p[|p| - 1]) && c.parse(p) == Some(e)
  }

  datatype Write<E> = Event(e: E) | Heartbeat

  function Frame<E>(c: Codec<E>, w: Write<E>): string {
    match w
    case Event(e) => "data: " + c.show(e) + "\n\n"
    case Heartbeat => ": ping\n\n"
  }

  function Wire<E>(c: Codec<E>, ws: seq<Write<E>>): string {
    if ws == [] then "" else Frame(c, ws[0]) + Wire(c, ws[1..])
  }

  function Events<E>(ws: seq<Write<E>>): seq<E> {
    if ws == [] then [] else (if ws[0].Event? then [ws[0].e] else []) + Events(ws[1..])
  }

  lemma {:induction false} OneLine(s: string)
    requires NoNewline(s)
    ensures Lines(s) == [s]
    decreases |s|
  {
    if s != "" {
      OneLine(s[1..]);
      assert [s[0]] + s[1..] == s;
    }
  }

  lemma TrimmedPayload(p: string)
    requires p != "" && !IsSpace(p[0]) && !IsSpace(p[|p| - 1])
    ensures TrimSpace(" " + p) == p
  {
    var s := " " + p;
    assert s[1..] == p;
    assert TrimLeft(s) == TrimLeft(p) == p;
  }

  lemma DecodeEvent<E(!new)>(c: Codec<E>, e: E)
    requires OneLineJson(c)
    ensures NoNewline("data: " + c.show(e)) && Decode(c.parse, "data: " + c.show(e)) == [e]
  {
    var p := c.show(e);
    var line := "data: " + p;
    assert NoNewline(p) && p != "" && !IsSpace(p[0]) && !IsSpace(p[|p| - 1]) && c.parse(p) == Some(e);
    OneLine(line);
    TrimmedPayload(p);
    hide Lines, TrimSpace, IsSpace, OneLineJson;
    assert line[..5] == "data:" && line[5..] == " " + p;
    var lines: seq<string> := [line];
    assert lines[1..] == [];
    assert DataOf(lines) == [p];
  }

  lemma DecodeHeartbeat<E>(parse: string -> Option<E>)
    ensures NoNewline(": ping") && Decode(parse, ": ping") == []
  {
    var line := ": ping";
    OneLine(line);
    hide Lines;
    assert line[0] != "data:"[0];
    assert !IsData(line);
    var lines: seq<string> := [line];
    assert lines[1..] == [];
    assert DataOf(lines) == [];
  }

  /** A frame ends at its own blank line, whatever follows. */
  lemma FrameBoundary(line: string, rest: string)
    requires NoNewline(line)
    ensures FrameEnd(line + "\n\n" + rest, 0) == |line|
  {
    var b := line + "\n\n" + rest;
    assert forall k :: 0 <= k < |line| ==> b[k] == line[k];
    FirstBlank(b, |line|);
  }

  lemma ParsedFrame<E>(parse: string -> Option<E>, line: string, rest: string)
    requires NoNewline(line)
    ensures var b := line + "\n\n" + rest; Parsed(parse, b) == Decode(parse, line) + Parsed(parse, rest) && Rest(b) == Rest(rest)
  {
    var b := line + "\n\n" + rest;
    FrameBoundary(line, rest);
    assert b[..|line|] == line && b[|line| + 2..] == rest;
    ParsedStep(parse, b);
  }

  /** The parser reads back exactly the events written, in order, and nothing is left over. */
  lemma {:induction false} WireRoundTrip<E(!new)>(c: Codec<E>, ws: seq<Write<E>>)
    requires OneLineJson(c)
    ensures Parsed(c.parse, Wire(c, ws)) == Events(ws) && Rest(Wire(c, ws)) == ""
    decreases |ws|
  {
    hide OneLineJson, Decode;
    if ws != [] {
      var rest := Wire(c, ws[1..]);
      WireRoundTrip(c, ws[1..]);
      var line := if ws[0].Event? then "data: " + c.show(ws[0].e) else ": ping";
      if ws[0].Event? { DecodeEvent(c, ws[0].e); } else { DecodeHeartbeat(c.parse); }
      ParsedFrame(c.parse, line, rest);
      assert Frame(c, ws[0]) == line + "\n\n";
      assert Wire(c, ws) == line + "\n\n" + rest;
    }
  }

  /** Events, heartbeats between them, and any split into chunks: the parser yields the events. */
  lemma StreamRoundTrip<E(!new)>(c: Codec<E>, ws: seq<Write<E>>, chunks: seq<string>)
    requires OneLineJson(c) && Concat(chunks) == Wire(c, ws)
    ensures Feed(c.parse, "", chunks) == Events(ws)
  {
    ChunksDoNotMatter(c.parse, "", chunks);
    WireRoundTrip(c, ws);
    assert "" + Concat(chunks) == Wire(c, ws);
  }

  /** A stream cut off anywhere yields a prefix of the events. */
  lemma CutStream<E(!new)>(c: Codec<E>, ws: seq<Write<E>>, n: nat)
    requires OneLineJson(c) && n <= |Wire(c, ws)|
    ensures Parsed(c.parse, Wire(c, ws)[..n]) <= Events(ws)
  {
    hide Parsed, Rest, Wire, Events, OneLineJson;
    WireRoundTrip(c, ws);
    var w := Wire(c, ws);
    ParsedConcat(c.parse, w[..n], w[n..]);
    assert w[..n] + w[n..] == w;
  }

  // ----- the wire, spelled out -----

  /** What the server writes: a data line and a blank line, or a comment and a blank line. */
  lemma FrameIs<E>(c: Codec<E>, e: E)
    ensures Frame(c, Event(e)) == "data: " + c.show(e) + "\n\n" && Frame(c, Heartbeat) == ": ping\n\n"
  {}

  lemma {:induction false} LinesApart(a: string, b: string)
    requires NoNewline(a)
    ensures Lines(a + "\n" + b) == [a] + Lines(b)
  {
    var s := a + "\n" + b;
    if a == "" {
      assert s[1..] == b;
    } else {
      assert s[1..] == a[1..] + "\n" + b;
      LinesApart(a[1..], b);
      assert [a[0]] + a[1..] == a;
    }
  }

  /**
   * How a frame is read: of its lines those that start with `data:` count, each without that prefix
   * and the white space around it, joined by newlines; any other line is passed over.
   */
  lemma LinesRead<E>(parse: string -> Option<E>, a: string, other: string, b: string)
    requires NoNewline(a) && NoNewline(other) && NoNewline(b) && !IsData(other)
    ensures Decode(parse, "data:" + a + "\n" + other + "\n" + "data:" + b) ==
              var e := parse(TrimSpace(a) + "\n" + TrimSpace(b)); if e.Some? then [e.value] else []
  {
    var x, y := "data:" + a, "data:" + b;
    LinesApart(x, other + "\n" + y);
    LinesApart(other, y);
    OneLine(y);
    var raw := "data:" + a + "\n" + other + "\n" + "data:" + b;
    assert raw == x + "\n" + (other + "\n" + y);
    hide Lines, TrimSpace;
    assert x[..5] == "data:" && x[5..] == a && y[..5] == "data:" && y[5..] == b;
    ThreeData(x, other, y);
    var lines: seq<string> := [TrimSpace(a), TrimSpace(b)];
    assert lines[1..] == [TrimSpace(b)];
    assert Joined(lines) == TrimSpace(a) + "\n" + TrimSpace(b);
    assert DataOf(Lines(raw)) == lines;
  }

  lemma ThreeData(x: string, other: string, y: string)
    requires IsData(x) && IsData(y) && !IsData(other)
    ensures DataOf([x] + ([other] + [y])) == [TrimSpace(x[5..]), TrimSpace(y[5..])]
  {
    hide TrimSpace;
    var three: seq<string> := [x] + ([other] + [y]);
    var two: seq<string> := [other] + [y];
    var one: seq<string> := [y];
    assert three[1..] == two && two[1..] == one && one[1..] == [];
    assert DataOf(one) == [TrimSpace(y[5..])] + DataOf([]) == [TrimSpace(y[5..])];
    assert DataOf(two) == [] + DataOf(one) == [TrimSpace(y[5..])];
  }

  /** A frame without data carries nothing. */
  lemma NoData<E>(parse: string -> Option<E>, line: string)
    requires NoNewline(line) && !IsData(line)
    ensures Decode(parse, line) == []
  {
    OneLine(line);
    var lines: seq<string> := [line];
    assert lines[1..] == [];
    assert DataOf(lines) == [] + DataOf([]) == [];
    assert Lines(line) == lines;
    assert DataOf(Lines(line)) == [];
  }

  /** A payload that does not parse is passed over, and the frames around it are still read. */
  lemma BadPayload<E>(parse: string -> Option<E>, a: string, rest: string)
    requires NoNewline(a) && parse(TrimSpace(a)).None?
    ensures Parsed(parse, "data:" + a + "\n\n" + rest) == Parsed(parse, rest)
  {
    var line := "data:" + a;
    OneLine(line);
    hide Lines, TrimSpace;
    assert line[..5] == "data:" && line[5..] == a;
    var lines: seq<string> := [line];
    assert lines[1..] == [];
    assert DataOf([line]) == [TrimSpace(a)] by { assert DataOf([]) == []; }
    ParsedFrame(parse, line, rest);
    assert [] + Parsed(parse, rest) == Parsed(parse, rest);
  }
}
