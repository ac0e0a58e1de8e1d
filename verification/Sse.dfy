/**
 The incremental Server-Sent Events decoder, one line at a time, and the block-wise reading it
 refines: split the lines at blank lines, and read each block as a whole.
 */
module Sse {
  datatype Frame = Frame(event: string, data: string)

  /** The decoder's two fields: the pending event name and the pending data lines. */
  datatype Pending = Pending(event: string, data: seq<string>)

  const NOTHING := Pending("", [])

  predicate IsComment(line: string) {
    line != "" && line[0] == ':'
  }

  /** The text before the first colon; the whole line if there is none. */
  function FieldOf(line: string): (f: string)
    ensures |f| <= |line|
  {
    if line == "" || line[0] == ':' then "" else [line[0]] + FieldOf(line[1..])
  }

  /** The text after the first colon, less one leading space. */
  function ValueOf(line: string): string {
    var rest := line[|FieldOf(line)|..];
    var v := if rest == "" then "" else rest[1..];
    if v != "" && v[0] == ' ' then v[1..] else v
  }

  function Join(lines: seq<string>): string {
    if lines == [] then ""
    else if |lines| == 1 then lines[0]
    else lines[0] + "\n" + Join(lines[1..])
  }

  function EventName(name: string): string {
    if name == "" then "message" else name
  }

  /** The decoder after one line. */
  function Fed(p: Pending, line: string): Pending {
    if line == "" then NOTHING
    else if IsComment(line) then p
    else if FieldOf(line) == "event" then p.(event := ValueOf(line))
    else if FieldOf(line) == "data" then p.(data := p.data + [ValueOf(line)])
    else p
  }

  /** The frame a line completes, if any. */
  function Emitted(p: Pending, line: string): seq<Frame> {
    if line == "" && p.data != [] then [Frame(EventName(p.event), Join(p.data))] else []
  }

  class Decoder {
    var event: string
    var data: seq<string>

    function State(): Pending
      reads this
    {
      Pending(event, data)
    }

    constructor ()
      ensures State() == NOTHING
    {
      event, data := "", [];
    }

    method Push(line: string) returns (frame: Frame, ok: bool)
      modifies this
      ensures State() == Fed(old(State()), line)
      ensures (if ok then [frame] else []) == Emitted(old(State()), line)
    {
      frame, ok := Frame("", ""), false;
      if line == "" {
        if |data| == 0 {
          event := "";
          return;
        }
        frame, ok := Frame(EventName(event), Join(data)), true;
        event, data := "", [];
        return;
      }
      if line[0] == ':' {
        return;
      }
      var field, value := FieldOf(line), ValueOf(line);
      if field == "event" {
        event := value;
      } else if field == "data" {
        data := data + [value];
      }
    }

    /** Feeding a whole stream from a fresh decoder yields exactly the block-wise reading of it. */
    method PushAll(lines: seq<string>) returns (frames: seq<Frame>)
      requires State() == NOTHING
      modifies this
      ensures frames == BlockFrames(lines)
    {
      frames := [];
      for i := 0 to |lines|
        invariant State() == FedAll(NOTHING, lines[..i])
        invariant frames == Decode(NOTHING, lines[..i])
      {
        assert lines[..i + 1] == lines[..i] + [lines[i]];
        DecodeConcat(NOTHING, lines[..i], [lines[i]]);
        DecodeOne(FedAll(NOTHING, lines[..i]), lines[i]);
        var frame, ok := Push(lines[i]);
        frames := frames + if ok then [frame] else [];
      }
      assert lines[..|lines|] == lines;
      DecoderRefinesBlocks(lines);
    }
  }

  function FedAll(p: Pending, lines: seq<string>): Pending
    decreases |lines|
  {
    if lines == [] then p else FedAll(Fed(p, lines[0]), lines[1..])
  }

  /** All frames completed while feeding `lines`. */
  function Decode(p: Pending, lines: seq<string>): seq<Frame>
    decreases |lines|
  {
    if lines == [] then [] else Emitted(p, lines[0]) + Decode(Fed(p, lines[0]), lines[1..])
  }

  lemma DecodeOne(p: Pending, line: string)
    ensures FedAll(p, [line]) == Fed(p, line) && Decode(p, [line]) == Emitted(p, line)
  {
    assert [line][1..] == [];
    assert FedAll(Fed(p, line), []) == Fed(p, line) && Decode(Fed(p, line), []) == [];
  }

  lemma {:induction false} DecodeConcat(p: Pending, a: seq<string>, b: seq<string>)
    ensures FedAll(p, a + b) == FedAll(FedAll(p, a), b)
    ensures Decode(p, a + b) == Decode(p, a) + Decode(FedAll(p, a), b)
    decreases |a|
  {
    if a == [] {
      assert a + b == b;
    } else {
      assert (a + b)[1..] == a[1..] + b;
      DecodeConcat(Fed(p, a[0]), a[1..], b);
    }
  }

  // ------------------------------------------------------------ block-wise reading

  /** How many lines come before the first blank one. */
  function BlockLength(lines: seq<string>): (n: nat)
    ensures n <= |lines|
    ensures forall i :: 0 <= i < n ==> lines[i] != ""
    ensures n < |lines| ==> lines[n] == ""
  {
    if lines == [] || lines[0] == "" then 0 else 1 + BlockLength(lines[1..])
  }

  /** The blocks that a blank line closes; an unclosed tail is not a block. */
  function Blocks(lines: seq<string>): seq<seq<string>>
    decreases |lines|
  {
    var n := BlockLength(lines);
    if n == |lines| then [] else [lines[..n]] + Blocks(lines[n + 1..])
  }

  /** The values of one field over a block, in order; comments have no field. */
  function ValuesOf(block: seq<string>, field: string): seq<string> {
    if block == [] then []
    else
      var n := |block| - 1;
      ValuesOf(block[..n], field)
      + if !IsComment(block[n]) && FieldOf(block[n]) == field then [ValueOf(block[n])] else []
  }

  /** What a block says as a whole: its last event value and all its data values. */
  function Gathered(block: seq<string>): Pending {
    var events := ValuesOf(block, "event");
    Pending(if events == [] then "" else events[|events| - 1], ValuesOf(block, "data"))
  }

  /** One block read as a whole: nothing without data, else the event name and the joined data. */
  function BlockFrame(block: seq<string>): seq<Frame> {
    var p := Gathered(block);
    if p.data == [] then [] else [Frame(EventName(p.event), Join(p.data))]
  }

  function FramesOf(blocks: seq<seq<string>>): seq<Frame> {
    if blocks == [] then [] else BlockFrame(blocks[0]) + FramesOf(blocks[1..])
  }

  function BlockFrames(lines: seq<string>): seq<Frame> {
    FramesOf(Blocks(lines))
  }

  lemma GatherOneMore(block: seq<string>, line: string)
    requires line != ""
    ensures Gathered(block + [line]) == Fed(Gathered(block), line)
  {
    hide FieldOf, ValueOf, IsComment;
    assert (block + [line])[..|block|] == block;
  }

  /** One line more inside a block. */
  lemma DecodeBlockSnoc(block: seq<string>, line: string)
    requires line != "" && Decode(NOTHING, block) == [] && FedAll(NOTHING, block) == Gathered(block)
    ensures Decode(NOTHING, block + [line]) == [] && FedAll(NOTHING, block + [line]) == Gathered(block + [line])
  {
    hide Fed, Gathered, Decode, FedAll;
    DecodeConcat(NOTHING, block, [line]);
    DecodeOne(FedAll(NOTHING, block), line);
    GatherOneMore(block, line);
  }

  /** Within a block the decoder gathers the data values and the last event value, and emits nothing. */
  lemma {:induction false} DecodeBlock(block: seq<string>)
    requires forall i :: 0 <= i < |block| ==> block[i] != ""
    ensures Decode(NOTHING, block) == [] && FedAll(NOTHING, block) == Gathered(block)
  {
    if block != [] {
      hide *;
      var n := |block| - 1;
      assert block == block[..n] + [block[n]];
      DecodeBlock(block[..n]);
      DecodeBlockSnoc(block[..n], block[n]);
    }
  }

  /** A closed block decodes to its frame and leaves the decoder empty. */
  lemma DecodeClosedBlock(block: seq<string>)
    requires forall i :: 0 <= i < |block| ==> block[i] != ""
    ensures Decode(NOTHING, block + [""]) == BlockFrame(block) && FedAll(NOTHING, block + [""]) == NOTHING
  {
    hide FieldOf, ValueOf, IsComment, EventName, Join, Gathered;
    DecodeBlock(block);
    DecodeConcat(NOTHING, block, [""]);
    DecodeOne(FedAll(NOTHING, block), "");
  }

  /** Pushing lines one by one means the same as reading the blocks. */
  lemma {:induction false} DecoderRefinesBlocks(lines: seq<string>)
    ensures Decode(NOTHING, lines) == BlockFrames(lines)
    decreases |lines|
  {
    hide Decode, FedAll, BlockFrame;
    var n := BlockLength(lines);
    var block := lines[..n];
    if n == |lines| {
      DecodeBlock(block);
      assert lines == block;
    } else {
      var tail := lines[n + 1..];
      DecodeClosedBlock(block);
      assert lines == (block + [""]) + tail;
      DecodeConcat(NOTHING, block + [""], tail);
      DecoderRefinesBlocks(tail);
      assert Blocks(lines)[1..] == Blocks(tail);
    }
  }

  // ------------------------------------------------------------------ round trip

  /** The lines of a text; the inverse of `Join`. */
  function Lines(s: string): (r: seq<string>)
    ensures r != []
  {
    if s == "" then [""]
    else
      var r := Lines(s[1..]);
      if s[0] == '\n' then [""] + r else [[s[0]] + r[0]] + r[1..]
  }

  lemma PlusAssociates(a: string, b: string, c: string)
    ensures (a + b) + "\n" + c == a + (b + "\n" + c)
  {}

  lemma JoinStep(first: string, rest: seq<string>)
    ensures Join([first] + rest) == if rest == [] then first else first + "\n" + Join(rest)
  {
    assert ([first] + rest)[1..] == rest;
  }

  lemma JoinPrepends(c: char, r: seq<string>)
    requires r != []
    ensures Join([""] + r) == "\n" + Join(r)
    ensures Join([[c] + r[0]] + r[1..]) == [c] + Join(r)
  {
    hide Join;
    JoinStep("", r);
    JoinStep([c] + r[0], r[1..]);
    JoinStep(r[0], r[1..]);
    assert [r[0]] + r[1..] == r;
    PlusAssociates([c], r[0], Join(r[1..]));
  }

  lemma {:induction false} JoinLines(s: string)
    ensures Join(Lines(s)) == s
  {
    if s != "" {
      hide Join;
      JoinLines(s[1..]);
      JoinPrepends(s[0], Lines(s[1..]));
      assert [s[0]] + s[1..] == s;
    }
  }

  function DataLines(values: seq<string>): seq<string> {
    if values == [] then [] else ["data: " + values[0]] + DataLines(values[1..])
  }

  function PrintFrame(f: Frame): seq<string> {
    ["event: " + f.event] + DataLines(Lines(f.data)) + [""]
  }

  function Print(frames: seq<Frame>): seq<string> {
    if frames == [] then [] else PrintFrame(frames[0]) + Print(frames[1..])
  }

  lemma {:induction false} FieldSplits(name: string, value: string)
    requires forall i :: 0 <= i < |name| ==> name[i] != ':'
    ensures FieldOf(name + ":" + value) == name
  {
    var line := name + ":" + value;
    if name == "" {
      assert line[0] == ':';
    } else {
      assert line[1..] == name[1..] + ":" + value && line[0] == name[0];
      FieldSplits(name[1..], value);
    }
  }

  /** A field written without the space reads as its value, a leading space being dropped once. */
  lemma FieldReads(name: string, value: string)
    requires name != "" && forall i :: 0 <= i < |name| ==> name[i] != ':'
    ensures var line := name + ":" + value;
            && !IsComment(line) && FieldOf(line) == name
            && ValueOf(line) == if value != "" && value[0] == ' ' then value[1..] else value
  {
    var line := name + ":" + value;
    FieldSplits(name, value);
    assert line[0] == name[0];
    assert line[|name|..] == ":" + value && (":" + value)[1..] == value;
  }

  /** A line without a colon is a field with an empty value. */
  lemma {:induction false} BareFieldReads(line: string)
    requires forall i :: 0 <= i < |line| ==> line[i] != ':'
    ensures FieldOf(line) == line && ValueOf(line) == ""
  {
    if line != "" {
      BareFieldReads(line[1..]);
    }
  }

  lemma PrintedField(name: string, value: string)
    requires name != "" && forall i :: 0 <= i < |name| ==> name[i] != ':'
    ensures var line := name + ": " + value;
            line != "" && !IsComment(line) && FieldOf(line) == name && ValueOf(line) == value
  {
    var line := name + ": " + value;
    assert line == name + ":" + (" " + value);
    FieldSplits(name, " " + value);
    assert line[|name|..] == ":" + (" " + value);
    assert (":" + (" " + value))[1..] == " " + value;
    assert (" " + value)[1..] == value;
  }

  lemma DataLineAppends(p: Pending, value: string)
    ensures Fed(p, "data: " + value) == p.(data := p.data + [value]) && Emitted(p, "data: " + value) == []
  {
    hide FieldOf, ValueOf, IsComment;
    PrintedField("data", value);
    assert "data" + ": " + value == "data: " + value;
  }

  lemma DataLinesStep(values: seq<string>)
    requires values != []
    ensures DataLines(values) == ["data: " + values[0]] + DataLines(values[1..])
  {}

  lemma DecodeDataLine(p: Pending, value: string, rest: seq<string>)
    ensures var q := Pending(p.event, p.data + [value]);
            && FedAll(p, ["data: " + value] + rest) == FedAll(q, rest)
            && Decode(p, ["data: " + value] + rest) == Decode(q, rest)
  {
    hide Fed, Emitted, Decode, FedAll;
    DataLineAppends(p, value);
    DecodeOne(p, "data: " + value);
    DecodeConcat(p, ["data: " + value], rest);
  }

  lemma {:induction false} DecodeDataLines(p: Pending, values: seq<string>)
    ensures FedAll(p, DataLines(values)) == Pending(p.event, p.data + values)
    ensures Decode(p, DataLines(values)) == []
    decreases |values|
  {
    if values == [] {
      assert p.data + values == p.data && DataLines(values) == [];
    } else {
      hide Decode, FedAll, DataLines;
      DataLinesStep(values);
      DecodeDataLine(p, values[0], DataLines(values[1..]));
      DecodeDataLines(Pending(p.event, p.data + [values[0]]), values[1..]);
      assert p.data + [values[0]] + values[1..] == p.data + values;
    }
  }

  lemma DecodeFrame(f: Frame)
    requires f.event != ""
    ensures Decode(NOTHING, PrintFrame(f)) == [f] && FedAll(NOTHING, PrintFrame(f)) == NOTHING
  {
    hide FieldOf, ValueOf, IsComment;
    var head, body := ["event: " + f.event], DataLines(Lines(f.data));
    PrintedField("event", f.event);
    assert "event" + ": " + f.event == "event: " + f.event;
    DecodeOne(NOTHING, head[0]);
    var p := Pending(f.event, []);
    DecodeDataLines(p, Lines(f.data));
    assert [] + Lines(f.data) == Lines(f.data);
    DecodeConcat(NOTHING, head, body);
    DecodeConcat(NOTHING, head + body, [""]);
    DecodeOne(FedAll(NOTHING, head + body), "");
    JoinLines(f.data);
  }

  /** Data without an event line makes a frame named "message". */
  lemma DecodeUnnamed(data: string)
    ensures Decode(NOTHING, DataLines(Lines(data)) + [""]) == [Frame("message", data)]
  {
    hide FieldOf, ValueOf, IsComment, DataLines;
    var body := DataLines(Lines(data));
    DecodeDataLines(NOTHING, Lines(data));
    assert [] + Lines(data) == Lines(data);
    DecodeConcat(NOTHING, body, [""]);
    DecodeOne(FedAll(NOTHING, body), "");
    JoinLines(data);
  }

  lemma {:induction false} DecodePrint(frames: seq<Frame>)
    requires forall i :: 0 <= i < |frames| ==> frames[i].event != ""
    ensures Decode(NOTHING, Print(frames)) == frames
  {
    if frames != [] {
      DecodeFrame(frames[0]);
      DecodePrint(frames[1..]);
      DecodeConcat(NOTHING, PrintFrame(frames[0]), Print(frames[1..]));
    }
  }

  function WithoutComments(lines: seq<string>): seq<string> {
    if lines == [] then []
    else (if IsComment(lines[0]) then [] else [lines[0]]) + WithoutComments(lines[1..])
  }

  /** Comment lines are invisible wherever they stand. */
  lemma {:induction false} CommentsAreInvisible(p: Pending, lines: seq<string>)
    ensures Decode(p, lines) == Decode(p, WithoutComments(lines))
    decreases |lines|
  {
    if lines != [] {
      hide FieldOf, ValueOf;
      CommentsAreInvisible(Fed(p, lines[0]), lines[1..]);
      if IsComment(lines[0]) {
        assert [] + WithoutComments(lines[1..]) == WithoutComments(lines[1..]);
      } else {
        var kept := [lines[0]] + WithoutComments(lines[1..]);
        assert kept[1..] == WithoutComments(lines[1..]);
      }
    }
  }

  /** Any frames with named events survive printing and decoding, keepalive comments and all. */
  lemma StreamRoundTrip(frames: seq<Frame>, lines: seq<string>)
    requires forall i :: 0 <= i < |frames| ==> frames[i].event != ""
    requires WithoutComments(lines) == Print(frames)
    ensures Decode(NOTHING, lines) == frames
  {
    CommentsAreInvisible(NOTHING, lines);
    DecodePrint(frames);
  }
}
