/** A finished reply taken apart for reading: prose, thoughts and tool calls, in the order
    they were written, and each call that ran once. */
module Segments {
  import opened Conversation
  import opened Avoidance
  import opened Searching
  import opened Thinking
  import opened Braces

  const TOOL_FENCE := "```tool"
  const JSON_FENCE := "```json"
  const FENCE := "```"
  const TOOL_OPEN := "<tool_call>"
  const TOOL_CLOSE := "</tool_call>"

  /** A call that ran. */
  datatype Call = Call(step: nat, index: Option<nat>, name: string, arguments: Option<string>)

  /** What a parsed body has under `name`: nothing that counts, something that is not a
      string, or a string. */
  datatype Name = Nothing | NotAString | Written(name: string)

  datatype Parsed = Parsed(name: Name, arguments: Option<string>)

  /** The JSON parser, which is not this file's. */
  datatype Reader = Reader(parse: string -> Option<Parsed>)

  function Read(reader: Reader, body: string): Option<Parsed> {
    reader.parse(body)
  }

  predicate HasName(parsed: Option<Parsed>) {
    parsed.Some? && (parsed.value.name.NotAString? || Readable(parsed))
  }

  predicate Readable(parsed: Option<Parsed>) {
    parsed.Some? && parsed.value.name.Written? && parsed.value.name.name != ""
  }

  datatype Part =
    | Text(text: string)
    | Tool(call: Option<Call>, name: string, arguments: Option<string>, raw: string)
    | Think(text: string, open: bool)

  // ------------------------------------------------------------------------- reading one stretch

  datatype Opening = Fenced(at: nat, tag: string) | Tagged(at: nat) | Bare(at: nat)

  /** What a stretch of the reply is made of. */
  datatype Piece = Prose(text: string) | CallText(parsed: Option<Parsed>, raw: string)
  {
    function Source(): string {
      match this
      case Prose(text) => text
      case CallText(_, raw) => raw
    }
  }

  function FirstFence(text: string, from: nat): Option<Opening> {
    match (IndexOf(text, TOOL_FENCE, from), IndexOf(text, JSON_FENCE, from))
    case (None, None) => None
    case (Some(t), None) => Some(Fenced(t, TOOL_FENCE))
    case (None, Some(j)) => Some(Fenced(j, JSON_FENCE))
    case (Some(t), Some(j)) => Some(if t < j then Fenced(t, TOOL_FENCE) else Fenced(j, JSON_FENCE))
  }

  function Earlier(a: Option<Opening>, b: Option<Opening>): Option<Opening> {
    if a.None? then b else if b.None? || a.value.at < b.value.at then a else b
  }

  predicate Opens(text: string, o: Opening) {
    match o
    case Fenced(at, tag) => tag in {TOOL_FENCE, JSON_FENCE} && At(tag, text, at)
    case Tagged(at) => At(TOOL_OPEN, text, at)
    case Bare(at) => OpensCall(text, at)
  }

  /** Whichever of the three kinds of block begins first. */
  function FirstOpening(text: string, from: nat): (o: Option<Opening>)
    requires from <= |text|
    ensures o.Some? ==> from <= o.value.at < |text| && Opens(text, o.value)
  {
    hide OpensCall;
    var tagged, bare := IndexOf(text, TOOL_OPEN, from), BareStart(text, from);
    Earlier(FirstFence(text, from),
            Earlier(if bare.Some? then Some(Bare(bare.value)) else None,
                    if tagged.Some? then Some(Tagged(tagged.value)) else None))
  }

  /** Whether a block fenced as JSON is only shown: it neither opens a call nor could. */
  predicate ShowsJson(text: string, body: nat, close: Option<nat>)
    requires body <= |text| && (close.Some? ==> body <= close.value <= |text|)
  {
    var inside := text[body..close.GetOr(|text|)];
    var first := if |inside| <= 16 then inside else inside[..16];
    !MayOpenCall(first) && !OpensCall(text, SkipSpaces(text, body))
  }

  ghost function ObjectClose(text: string, start: nat): (end: Option<nat>)
    ensures EndsAt(text, start, end)
  {
    if e: nat :| ClosesAt(text, start, e) then Some(FirstClose(text, start, e)) else None
  }

  ghost function FirstClose(text: string, start: nat, e: nat): (first: nat)
    requires ClosesAt(text, start, e)
    ensures EndsAt(text, start, Some(first))
  {
    if k: nat :| k < e && ClosesAt(text, start, k) then FirstClose(text, start, k) else e
  }

  /** Where the block an opening begins ends: with its closing mark, or with the reply. */
  ghost function BlockEnd(text: string, o: Opening): (end: nat)
    requires Opens(text, o) && o.at < |text|
    ensures o.at < end <= |text|
  {
    hide OpensCall;
    match o
    case Tagged(at) =>
      var close := IndexOf(text, TOOL_CLOSE, at + |TOOL_OPEN|);
      if close.Some? then close.value + |TOOL_CLOSE| else |text|
    case Fenced(at, tag) =>
      var close := IndexOf(text, FENCE, BodyAfter(text, at + |tag|));
      if close.Some? then close.value + |FENCE| else |text|
    case Bare(at) =>
      ObjectClose(text, at).GetOr(|text|)
  }

  /** What a block says, where it is a call, parsed or not; nothing where it is only text. */
  ghost function CallIn(reader: Reader, text: string, o: Opening): Option<Option<Parsed>>
    requires Opens(text, o) && o.at < |text|
  {
    hide OpensCall, MayOpenCall;
    match o
    case Tagged(at) =>
      var body := at + |TOOL_OPEN|;
      var close := IndexOf(text, TOOL_CLOSE, body);
      if close.None? then None else Named(Read(reader, text[body..close.value]))
    case Fenced(at, tag) =>
      var body := BodyAfter(text, at + |tag|);
      var close := IndexOf(text, FENCE, body);
      if tag == JSON_FENCE && ShowsJson(text, body, close) then None
      else if close.None? then Some(Read(reader, text[body..]))
      else if tag == JSON_FENCE then Named(Read(reader, text[body..close.value]))
      else Some(Read(reader, text[body..close.value]))
    case Bare(at) =>
      var close := ObjectClose(text, at);
      if close.None? then None else Named(Read(reader, text[at..close.value]))
  }

  function Named(parsed: Option<Parsed>): Option<Option<Parsed>> {
    if HasName(parsed) then Some(parsed) else None
  }

  ghost function BlockOf(reader: Reader, text: string, o: Opening): (piece: Piece)
    requires Opens(text, o) && o.at < |text|
    ensures piece.Source() == text[o.at..BlockEnd(text, o)]
  {
    var raw := text[o.at..BlockEnd(text, o)];
    match CallIn(reader, text, o)
    case Some(parsed) => CallText(parsed, raw)
    case None => Prose(raw)
  }

  /** A fence's body starts on the line below it. */
  function BodyAfter(text: string, k: nat): (body: nat)
    requires k <= |text|
    ensures k <= body <= |text|
  {
    if k < |text| && text[k] == '\n' then k + 1 else k
  }

  ghost function Pieces(reader: Reader, text: string, from: nat): seq<Piece>
    requires from <= |text|
    decreases |text| - from
  {
    if from == |text| then []
    else
      var o := FirstOpening(text, from);
      if o.None? then [Prose(text[from..])]
      else
        [Prose(text[from..o.value.at]), BlockOf(reader, text, o.value)] + Pieces(reader, text, BlockEnd(text, o.value))
  }

  function Sources(pieces: seq<Piece>): string {
    if pieces == [] then "" else pieces[0].Source() + Sources(pieces[1..])
  }

  /** Read for calls, a stretch loses nothing and gains nothing. */
  lemma {:induction false} ReadingConserves(reader: Reader, text: string, from: nat)
    requires from <= |text|
    ensures Sources(Pieces(reader, text, from)) == text[from..]
    decreases |text| - from
  {
    hide BlockOf, BlockEnd, FirstOpening, Opens, Sources;
    if from == |text| {
      NoSource();
    } else {
      var o := FirstOpening(text, from);
      if o.None? {
        OneSource(Prose(text[from..]));
      } else {
        var at, end := o.value.at, BlockEnd(text, o.value);
        var block := BlockOf(reader, text, o.value);
        ReadingConserves(reader, text, end);
        TwoSources(Prose(text[from..at]), block, Pieces(reader, text, end));
        Apart(text, from, at, end);
      }
    }
  }

  lemma Apart(text: string, from: nat, at: nat, end: nat)
    requires from <= at <= end <= |text|
    ensures text[from..] == text[from..at] + text[at..end] + text[end..]
  {
  }

  lemma NoSource()
    ensures Sources([]) == ""
  {
  }

  lemma OneSource(a: Piece)
    ensures Sources([a]) == a.Source()
  {
    assert Sources([a]) == a.Source() + Sources([]);
  }

  lemma TwoSources(a: Piece, b: Piece, rest: seq<Piece>)
    ensures Sources([a, b] + rest) == a.Source() + b.Source() + Sources(rest)
  {
    var all := [a, b] + rest;
    assert all[1..] == [b] + rest && all[1..][1..] == rest;
    assert a.Source() + (b.Source() + Sources(rest)) == a.Source() + b.Source() + Sources(rest);
  }

  // ------------------------------------------------------------------------- parts, as they pile up

  function Source(part: Part): string {
    match part
    case Text(text) => text
    case Tool(_, _, _, raw) => raw
    case Think(text, open) => OPEN + text + if open then "" else CLOSE
  }

  function Joined(parts: seq<Part>): string {
    if parts == [] then "" else Joined(parts[..|parts| - 1]) + Source(parts[|parts| - 1])
  }

  /** The calls that ran, in the order they are drawn. */
  function Called(parts: seq<Part>): seq<Call> {
    if parts == [] then []
    else
      var last := parts[|parts| - 1];
      Called(parts[..|parts| - 1]) + if last.Tool? && last.call.Some? then [last.call.value] else []
  }

  /** What is waiting to be drawn: the parts so far, and how many calls a block was read for. */
  datatype Drawing = Drawing(parts: seq<Part>, used: nat)

  /** Text next to text is one part. */
  function WithText(parts: seq<Part>, t: string): seq<Part> {
    if t == "" then parts
    else if parts != [] && parts[|parts| - 1].Text?
    then parts[..|parts| - 1] + [Text(parts[|parts| - 1].text + t)]
    else parts + [Text(t)]
  }

  function NonEmpty(a: Option<string>, b: Option<string>): Option<string> {
    if a.Some? && a.value != "" then a else if b.Some? && b.value != "" then b else None
  }

  /** A block that can be read takes the next call that ran. */
  function ToolPart(calls: seq<Call>, used: nat, parsed: Option<Parsed>, raw: string): Part {
    var call := if Readable(parsed) && used < |calls| then Some(calls[used]) else None;
    Tool(call,
         if call.Some? && call.value.name != "" then call.value.name
         else if Readable(parsed) then parsed.value.name.name else "",
         NonEmpty(if call.Some? then call.value.arguments else None,
                  if parsed.Some? then parsed.value.arguments else None),
         raw)
  }

  function WithPiece(calls: seq<Call>, d: Drawing, piece: Piece): Drawing {
    match piece
    case Prose(text) => d.(parts := WithText(d.parts, text))
    case CallText(parsed, raw) =>
      Drawing(d.parts + [ToolPart(calls, d.used, parsed, raw)], if Readable(parsed) then d.used + 1 else d.used)
  }

  function WithPieces(calls: seq<Call>, d: Drawing, pieces: seq<Piece>): Drawing
    decreases |pieces|
  {
    if pieces == [] then d else WithPieces(calls, WithPiece(calls, d, pieces[0]), pieces[1..])
  }

  /** A block that shows a call that ran says what ran, and not what the model wrote. */
  predicate SaysWhatRan(part: Part) {
    part.Tool? && part.call.Some? ==>
      && (part.call.value.name != "" ==> part.name == part.call.value.name)
      && (part.call.value.arguments.GetOr("") != "" ==> part.arguments == part.call.value.arguments)
  }

  predicate SayWhatRan(parts: seq<Part>) {
    forall i | 0 <= i < |parts| :: SaysWhatRan(parts[i])
  }

  /** So far every call up to `used` is drawn once, in order, as it ran. */
  predicate InStep(calls: seq<Call>, d: Drawing) {
    Called(d.parts) == calls[..if d.used <= |calls| then d.used else |calls|] && SayWhatRan(d.parts)
  }

  /** A name that counts: there, and not empty. */
  lemma HasNameMeaning(parsed: Option<Parsed>)
    ensures HasName(parsed) <==> parsed.Some? && parsed.value.name !in {Nothing, Written("")}
    ensures Readable(parsed) <==> HasName(parsed) && !parsed.value.name.NotAString?
  {
  }

  /** A block takes the next call that ran exactly where it can be read for one; a block that
      takes none says what was written, as far as that could be read. */
  lemma WhatABlockTakes(calls: seq<Call>, d: Drawing, parsed: Option<Parsed>, raw: string)
    ensures var after := WithPiece(calls, d, CallText(parsed, raw));
      && |after.parts| == |d.parts| + 1 && after.parts[..|d.parts|] == d.parts
      && after.parts[|d.parts|].Tool? && after.parts[|d.parts|].raw == raw
      && (after.parts[|d.parts|].call == if Readable(parsed) && d.used < |calls| then Some(calls[d.used]) else None)
      && (after.used == if Readable(parsed) then d.used + 1 else d.used)
      && SaysWhatRan(after.parts[|d.parts|])
      && (after.parts[|d.parts|].call.None? ==>
            && after.parts[|d.parts|].name == (if Readable(parsed) then parsed.value.name.name else "")
            && after.parts[|d.parts|].arguments.GetOr("") == (if parsed.Some? then parsed.value.arguments.GetOr("") else ""))
  {
  }

  lemma OneMorePart(parts: seq<Part>, part: Part)
    ensures Joined(parts + [part]) == Joined(parts) + Source(part)
    ensures Called(parts + [part]) == Called(parts) + if part.Tool? && part.call.Some? then [part.call.value] else []
  {
    assert (parts + [part])[..|parts|] == parts;
  }

  lemma TextDrawn(parts: seq<Part>, t: string)
    ensures Joined(WithText(parts, t)) == Joined(parts) + t && Called(WithText(parts, t)) == Called(parts)
  {
    if t == "" {
    } else if parts != [] && parts[|parts| - 1].Text? {
      var front, last := parts[..|parts| - 1], parts[|parts| - 1].text;
      OneMorePart(front, Text(last + t));
      assert Joined(parts) == Joined(front) + last;
    } else {
      OneMorePart(parts, Text(t));
    }
  }

  lemma TextSaysNothing(parts: seq<Part>, t: string)
    requires SayWhatRan(parts)
    ensures SayWhatRan(WithText(parts, t))
  {
  }

  lemma PieceDrawn(calls: seq<Call>, d: Drawing, piece: Piece)
    requires InStep(calls, d)
    ensures InStep(calls, WithPiece(calls, d, piece))
    ensures Joined(WithPiece(calls, d, piece).parts) == Joined(d.parts) + piece.Source()
  {
    match piece
    case Prose(text) =>
      TextDrawn(d.parts, text);
      TextSaysNothing(d.parts, text);
    case CallText(parsed, raw) => OneMorePart(d.parts, ToolPart(calls, d.used, parsed, raw));
  }

  lemma {:induction false} PiecesDrawn(calls: seq<Call>, d: Drawing, pieces: seq<Piece>)
    requires InStep(calls, d)
    ensures InStep(calls, WithPieces(calls, d, pieces))
    ensures Joined(WithPieces(calls, d, pieces).parts) == Joined(d.parts) + Sources(pieces)
    decreases |pieces|
  {
    hide WithPiece, InStep, Joined, Called, SayWhatRan;
    if pieces != [] {
      PieceDrawn(calls, d, pieces[0]);
      PiecesDrawn(calls, WithPiece(calls, d, pieces[0]), pieces[1..]);
    }
  }

  // ------------------------------------------------------------------------------ the whole reply

  ghost function WithRegions(reader: Reader, calls: seq<Call>, d: Drawing, regions: seq<Region>): Drawing {
    if regions == [] then d
    else
      var before, r := WithRegions(reader, calls, d, regions[..|regions| - 1]), regions[|regions| - 1];
      if r.think then before.(parts := before.parts + [Think(r.text, r.open)])
      else WithPieces(calls, before, Pieces(reader, r.text, 0))
  }

  lemma {:induction false} RegionsDrawn(reader: Reader, calls: seq<Call>, regions: seq<Region>)
    ensures var d := WithRegions(reader, calls, Drawing([], 0), regions);
            InStep(calls, d) && Joined(d.parts) == Rejoined(regions)
  {
    hide Pieces, WithPieces, InStep;
    if regions == [] {
      assert InStep(calls, Drawing([], 0)) by { NothingDrawn(calls); }
    } else {
      var front, r := regions[..|regions| - 1], regions[|regions| - 1];
      RegionsDrawn(reader, calls, front);
      var before := WithRegions(reader, calls, Drawing([], 0), front);
      if r.think {
        OneMorePart(before.parts, Think(r.text, r.open));
        ThoughtDrawn(calls, before, r);
      } else {
        PiecesDrawn(calls, before, Pieces(reader, r.text, 0));
        ReadingConserves(reader, r.text, 0);
      }
    }
  }

  lemma NothingDrawn(calls: seq<Call>)
    ensures InStep(calls, Drawing([], 0))
  {
  }

  lemma ThoughtDrawn(calls: seq<Call>, d: Drawing, r: Region)
    requires InStep(calls, d)
    ensures InStep(calls, d.(parts := d.parts + [Think(r.text, r.open)]))
  {
    OneMorePart(d.parts, Think(r.text, r.open));
  }

  /** A call the text does not show is drawn at the end. */
  function Unshown(call: Call): Part {
    Tool(Some(call), call.name, call.arguments, "")
  }

  function WithRest(calls: seq<Call>, d: Drawing): seq<Part>
    decreases |calls| - d.used
  {
    if d.used < |calls| then WithRest(calls, Drawing(d.parts + [Unshown(calls[d.used])], d.used + 1)) else d.parts
  }

  lemma {:induction false} RestDrawn(calls: seq<Call>, d: Drawing)
    requires InStep(calls, d)
    ensures Called(WithRest(calls, d)) == calls && Joined(WithRest(calls, d)) == Joined(d.parts)
    ensures SayWhatRan(WithRest(calls, d))
    decreases |calls| - d.used
  {
    if d.used < |calls| {
      OneMorePart(d.parts, Unshown(calls[d.used]));
      RestDrawn(calls, Drawing(d.parts + [Unshown(calls[d.used])], d.used + 1));
    }
  }

  /** Everything a reply is drawn as, before trimming: its regions in order, and then the
      calls it does not show. */
  ghost function DrawnReply(reader: Reader, calls: seq<Call>, text: string): seq<Part> {
    WithRest(calls, WithRegions(reader, calls, Drawing([], 0), RegionsOf(text)))
  }

  // --------------------------------------------------------------------------------- calls in order

  predicate NotAfter(a: Call, b: Call) {
    a.step < b.step || (a.step == b.step && a.index.GetOr(1) <= b.index.GetOr(1))
  }

  predicate Ordered(calls: seq<Call>) {
    forall i, j | 0 <= i < j < |calls| :: NotAfter(calls[i], calls[j])
  }

  function Inserted(calls: seq<Call>, call: Call): seq<Call> {
    if calls == [] || NotAfter(calls[|calls| - 1], call) then calls + [call]
    else Inserted(calls[..|calls| - 1], call) + [calls[|calls| - 1]]
  }

  /** By step, and within a step in the order the reply wrote them. */
  function InOrder(calls: seq<Call>): seq<Call> {
    if calls == [] then [] else Inserted(InOrder(calls[..|calls| - 1]), calls[|calls| - 1])
  }

  lemma {:induction false} InsertedMembers(calls: seq<Call>, call: Call)
    ensures multiset(Inserted(calls, call)) == multiset(calls) + multiset{call}
    ensures forall x | x in Inserted(calls, call) :: x in calls || x == call
  {
    if calls != [] && !NotAfter(calls[|calls| - 1], call) {
      InsertedMembers(calls[..|calls| - 1], call);
      assert calls == calls[..|calls| - 1] + [calls[|calls| - 1]];
    }
  }

  lemma {:induction false} InsertedInOrder(calls: seq<Call>, call: Call)
    requires Ordered(calls)
    ensures Ordered(Inserted(calls, call))
  {
    if calls == [] {
    } else if NotAfter(calls[|calls| - 1], call) {
      forall i | 0 <= i < |calls| ensures NotAfter(calls[i], call) {
        assert i == |calls| - 1 || NotAfter(calls[i], calls[|calls| - 1]);
      }
    } else {
      var front, last := calls[..|calls| - 1], calls[|calls| - 1];
      var r := Inserted(front, call);
      InsertedInOrder(front, call);
      InsertedMembers(front, call);
      forall i | 0 <= i < |r| ensures NotAfter(r[i], last) {
        if r[i] in front {
          var j :| 0 <= j < |front| && front[j] == r[i];
          assert NotAfter(calls[j], last);
        }
      }
    }
  }

  /** The calls that ran, by step and then by place, none lost and none twice. */
  lemma {:induction false} OrderKeepsCalls(calls: seq<Call>)
    ensures multiset(InOrder(calls)) == multiset(calls)
    ensures Ordered(InOrder(calls))
    ensures var r := InOrder(calls);
            forall i, j | 0 <= i < j < |r| ::
              r[i].step < r[j].step || (r[i].step == r[j].step && r[i].index.GetOr(1) <= r[j].index.GetOr(1))
  {
    if calls != [] {
      var front, last := calls[..|calls| - 1], calls[|calls| - 1];
      OrderKeepsCalls(front);
      InsertedMembers(InOrder(front), last);
      InsertedInOrder(InOrder(front), last);
      assert calls == front + [last];
    }
  }

  /** The calls of one place, as they came. */
  function OfPlace(calls: seq<Call>, step: nat, index: nat): seq<Call> {
    if calls == [] then []
    else
      var last := calls[|calls| - 1];
      OfPlace(calls[..|calls| - 1], step, index)
      + if last.step == step && last.index.GetOr(1) == index then [last] else []
  }

  lemma OfPlaceSnoc(calls: seq<Call>, call: Call, step: nat, index: nat)
    ensures OfPlace(calls + [call], step, index)
         == OfPlace(calls, step, index) + if call.step == step && call.index.GetOr(1) == index then [call] else []
  {
    assert (calls + [call])[..|calls|] == calls;
  }

  lemma {:induction false} NoneOfPlace(calls: seq<Call>, step: nat, index: nat)
    requires forall i | 0 <= i < |calls| :: calls[i].step != step || calls[i].index.GetOr(1) != index
    ensures OfPlace(calls, step, index) == []
  {
    if calls != [] {
      NoneOfPlace(calls[..|calls| - 1], step, index);
    }
  }

  lemma ApartInPlace(last: Call, call: Call)
    requires !NotAfter(last, call)
    ensures last.step != call.step || last.index.GetOr(1) != call.index.GetOr(1)
  {
  }

  lemma {:induction false} InsertedLast(calls: seq<Call>, call: Call, step: nat, index: nat)
    requires Ordered(calls)
    ensures OfPlace(Inserted(calls, call), step, index) == OfPlace(calls + [call], step, index)
  {
    hide NotAfter, OfPlace;
    OfPlaceSnoc(calls, call, step, index);
    if calls != [] && !NotAfter(calls[|calls| - 1], call) {
      var front, last := calls[..|calls| - 1], calls[|calls| - 1];
      assert calls == front + [last];
      ApartInPlace(last, call);
      InsertedLast(front, call, step, index);
      OfPlaceSnoc(front, last, step, index);
      OfPlaceSnoc(front, call, step, index);
      OfPlaceSnoc(Inserted(front, call), last, step, index);
    }
  }

  /** Calls nothing tells apart keep the order they came in. */
  lemma {:induction false} OrderIsStable(calls: seq<Call>, step: nat, index: nat)
    ensures OfPlace(InOrder(calls), step, index) == OfPlace(calls, step, index)
  {
    if calls != [] {
      var front, last := calls[..|calls| - 1], calls[|calls| - 1];
      OrderIsStable(front, step, index);
      OrderKeepsCalls(front);
      InsertedLast(InOrder(front), last, step, index);
      OfPlaceSnoc(InOrder(front), last, step, index);
    }
  }

  // --------------------------------------------------------------------------------- what is shown

  function Trimmed(part: Part): Part {
    match part
    case Text(text) => Text(DropTrailing(DropNewlines(text)))
    case Think(text, open) => Think(DropTrailing(DropSpaces(text)), open)
    case Tool(_, _, _, _) => part
  }

  predicate Drawable(part: Part) {
    part.Tool? || part.text != "" || (part.Think? && part.open)
  }

  function Shown(parts: seq<Part>): seq<Part> {
    if parts == [] then []
    else
      var last := Trimmed(parts[|parts| - 1]);
      Shown(parts[..|parts| - 1]) + if Drawable(last) then [last] else []
  }

  /** Prose loses the line breaks ahead of it and the white space after it, a thought the
      white space around it, and neither anything else. */
  lemma TrimMeaning(part: Part) returns (a: nat, b: nat)
    requires !part.Tool?
    ensures a <= b <= |part.text|
    ensures Trimmed(part) == if part.Text? then Text(part.text[a..b]) else Think(part.text[a..b], part.open)
    ensures forall i | 0 <= i < a :: if part.Text? then part.text[i] == '\n' else Space(part.text[i])
    ensures forall i | b <= i < |part.text| :: Space(part.text[i])
    ensures a < |part.text| ==> if part.Text? then part.text[a] != '\n' else !Space(part.text[a])
    ensures a < b ==> !Space(part.text[b - 1])
  {
    hide Space, DropNewlines, DropTrailing;
    if part.Text? {
      a := NewlinesAhead(part.text);
    } else {
      a := SkipSpaces(part.text, 0);
    }
    var rest := part.text[a..];
    var n := TrailingFrom(rest);
    b := a + n;
    assert forall i | b <= i < |part.text| :: part.text[i] == rest[i - a];
    assert rest[..n] == part.text[a..b];
    if a < b { assert rest[n - 1] == part.text[b - 1]; }
  }

  lemma {:induction false} NewlinesAhead(s: string) returns (a: nat)
    ensures a <= |s| && DropNewlines(s) == s[a..] && (forall i | 0 <= i < a :: s[i] == '\n') && (a < |s| ==> s[a] != '\n')
  {
    if s != "" && s[0] == '\n' {
      var rest := NewlinesAhead(s[1..]);
      a := rest + 1;
      assert forall i | 0 < i < a :: s[i] == s[1..][i - 1];
      assert s[1..][rest..] == s[a..];
    } else {
      a := 0;
      assert s[0..] == s;
    }
  }

  lemma {:induction false} TrailingFrom(s: string) returns (n: nat)
    ensures n <= |s| && DropTrailing(s) == s[..n] && (forall i | n <= i < |s| :: Space(s[i])) && (n > 0 ==> !Space(s[n - 1]))
  {
    if s != "" && Space(s[|s| - 1]) {
      n := TrailingFrom(s[..|s| - 1]);
      assert forall i | n <= i < |s| - 1 :: s[i] == s[..|s| - 1][i];
      assert s[..|s| - 1][..n] == s[..n];
    } else {
      n := |s|;
    }
  }

  /** The parts at those places, which are in order, trimmed. */
  predicate TrimmedAt(parts: seq<Part>, places: seq<nat>, shown: seq<Part>) {
    && |shown| == |places| && (forall i, j | 0 <= i < j < |places| :: places[i] < places[j])
    && (forall i | 0 <= i < |places| :: places[i] < |parts| && shown[i] == Trimmed(parts[places[i]]))
  }

  /** Every call, every thought still open, and whatever has something left to show. */
  predicate Seen(part: Part) {
    match part
    case Tool(_, _, _, _) => true
    case Text(text) => text != ""
    case Think(text, open) => text != "" || open
  }

  predicate AllSeen(parts: seq<Part>, places: seq<nat>) {
    forall i | 0 <= i < |parts| :: i in places <==> Seen(Trimmed(parts[i]))
  }

  /** What is shown is every part that has something to show, trimmed, in the order drawn. */
  lemma {:induction false} ShownInOrder(parts: seq<Part>) returns (places: seq<nat>)
    ensures TrimmedAt(parts, places, Shown(parts)) && AllSeen(parts, places)
  {
    hide Trimmed, TrimmedAt, AllSeen;
    if parts == [] {
      NothingShown();
      return [];
    }
    var front, last := parts[..|parts| - 1], parts[|parts| - 1];
    var before := ShownInOrder(front);
    assert parts == front + [last];
    places := if Seen(Trimmed(last)) then before + [|front|] else before;
    TrimmedMore(front, last, before, Shown(front));
    SeenMore(front, last, before, Shown(front));
    assert Shown(parts) == if Seen(Trimmed(last)) then Shown(front) + [Trimmed(last)] else Shown(front);
  }

  lemma NothingShown()
    ensures TrimmedAt([], [], []) && AllSeen([], [])
  {
  }

  lemma TrimmedMore(parts: seq<Part>, last: Part, places: seq<nat>, shown: seq<Part>)
    requires TrimmedAt(parts, places, shown)
    ensures TrimmedAt(parts + [last], places, shown)
    ensures TrimmedAt(parts + [last], places + [|parts|], shown + [Trimmed(last)])
  {
    hide Trimmed;
  }

  lemma SeenMore(parts: seq<Part>, last: Part, places: seq<nat>, shown: seq<Part>)
    requires AllSeen(parts, places) && TrimmedAt(parts, places, shown)
    ensures AllSeen(parts + [last], if Seen(Trimmed(last)) then places + [|parts|] else places)
  {
    hide Trimmed, Seen;
    var more := if Seen(Trimmed(last)) then places + [|parts|] else places;
    forall i | 0 <= i <= |parts| ensures i in more <==> Seen(Trimmed((parts + [last])[i])) {
      if i < |parts| {
        assert i in places <==> Seen(Trimmed(parts[i]));
      } else {
        assert |parts| !in places;
        if Seen(Trimmed(last)) { assert more[|more| - 1] == |parts|; }
      }
    }
  }

  /** Trimming and dropping what is empty never hides a call. */
  lemma {:induction false} CallsAreShown(parts: seq<Part>)
    ensures Called(Shown(parts)) == Called(parts)
  {
    hide DropTrailing, DropNewlines, DropSpaces, Joined, Source;
    if parts != [] {
      var front, last := parts[..|parts| - 1], Trimmed(parts[|parts| - 1]);
      CallsAreShown(front);
      OneMorePart(front, parts[|parts| - 1]);
      assert parts == front + [parts[|parts| - 1]];
      if Drawable(last) {
        OneMorePart(Shown(front), last);
      } else {
        assert Shown(parts) == Shown(front);
      }
    }
  }

  // ------------------------------------------------------------------------------------ as it runs

  class Segmenter {
    const reader: Reader
    const calls: seq<Call>
    var out: seq<Part>
    var used: nat

    function State(): Drawing
      reads this
    {
      Drawing(out, used)
    }

    constructor (reader: Reader, tools: seq<Call>)
      ensures this.reader == reader && calls == InOrder(tools) && State() == Drawing([], 0)
    {
      this.reader := reader;
      calls := InOrder(tools);
      out, used := [], 0;
    }

    method PushText(t: string)
      modifies this`out
      ensures State() == WithPiece(calls, old(State()), Prose(t))
    {
      if t == "" {
        return;
      }
      if |out| > 0 && out[|out| - 1].Text? {
        out := out[|out| - 1 := Text(out[|out| - 1].text + t)];
      } else {
        out := out + [Text(t)];
      }
    }

    method PushTool(parsed: Option<Parsed>, raw: string)
      modifies this
      ensures State() == WithPiece(calls, old(State()), CallText(parsed, raw))
    {
      var call := None;
      if Readable(parsed) {
        if used < |calls| {
          call := Some(calls[used]);
        }
        used := used + 1;
      }
      var named := if Readable(parsed) then parsed.value.name.name else "";
      out := out + [Tool(call, if call.Some? && call.value.name != "" then call.value.name else named,
                         NonEmpty(if call.Some? then call.value.arguments else None,
                                  if parsed.Some? then parsed.value.arguments else None), raw)];
    }

    /** A tagged call, where the tag is closed and what it holds has a name. */
    method PushTagged(text: string, at: nat) returns (end: nat)
      requires Opens(text, Tagged(at)) && at < |text|
      modifies this
      ensures at < end <= |text| && end == BlockEnd(text, Tagged(at))
      ensures State() == WithPiece(calls, old(State()), BlockOf(reader, text, Tagged(at)))
    {
      hide WithPiece;
      var body := at + |TOOL_OPEN|;
      var close := IndexOf(text, TOOL_CLOSE, body);
      if close.None? {
        assert text[at..] == text[at..|text|];
        PushText(text[at..]);
        return |text|;
      }
      end := close.value + |TOOL_CLOSE|;
      PushNamed(Read(reader, text[body..close.value]), text[at..end]);
    }

    /** A fenced block, left open or closed: a call, unless it plainly shows something else. */
    method PushFenced(text: string, at: nat, tag: string) returns (end: nat)
      requires Opens(text, Fenced(at, tag)) && at < |text|
      modifies this
      ensures at < end <= |text| && end == BlockEnd(text, Fenced(at, tag))
      ensures State() == WithPiece(calls, old(State()), BlockOf(reader, text, Fenced(at, tag)))
    {
      hide WithPiece, MayOpenCall, OpensCall, ShowsJson;
      var body := BodyAfter(text, at + |tag|);
      var close := IndexOf(text, FENCE, body);
      end := if close.Some? then close.value + |FENCE| else |text|;
      if tag == JSON_FENCE && ShowsJson(text, body, close) {
        PushText(text[at..end]);
      } else if close.None? {
        assert text[at..end] == text[at..] && text[body..|text|] == text[body..];
        PushTool(Read(reader, text[body..]), text[at..]);
      } else if tag == JSON_FENCE {
        PushNamed(Read(reader, text[body..close.value]), text[at..end]);
      } else {
        PushTool(Read(reader, text[body..close.value]), text[at..end]);
      }
    }

    /** A bare object, where it is closed and has a name. */
    method PushBare(text: string, at: nat) returns (end: nat)
      requires Opens(text, Bare(at)) && at < |text|
      modifies this
      ensures at < end <= |text| && end == BlockEnd(text, Bare(at))
      ensures State() == WithPiece(calls, old(State()), BlockOf(reader, text, Bare(at)))
    {
      hide WithPiece, OpensCall, EndsAt, ClosesAt;
      var close := ObjectEnd(text, at);
      OnlyOneEnd(text, at, close, ObjectClose(text, at));
      if close.None? {
        assert text[at..] == text[at..|text|];
        PushText(text[at..]);
        return |text|;
      }
      end := close.value;
      PushNamed(Read(reader, text[at..end]), text[at..end]);
    }

    /** What was parsed is a call where it has a name, and what the model wrote otherwise. */
    method PushNamed(parsed: Option<Parsed>, raw: string)
      modifies this
      ensures State() == WithPiece(calls, old(State()), if HasName(parsed) then CallText(parsed, raw) else Prose(raw))
    {
      if HasName(parsed) {
        PushTool(parsed, raw);
      } else {
        PushText(raw);
      }
    }

    /** One block, from its opening; what follows it begins at `end`, which is further on. */
    method PushBlock(text: string, o: Opening) returns (end: nat)
      requires Opens(text, o) && o.at < |text|
      modifies this
      ensures o.at < end <= |text| && end == BlockEnd(text, o)
      ensures State() == WithPiece(calls, old(State()), BlockOf(reader, text, o))
    {
      hide WithPiece, BlockOf, BlockEnd, Opens;
      match o {
        case Tagged(at) => end := PushTagged(text, at);
        case Fenced(at, tag) => end := PushFenced(text, at, tag);
        case Bare(at) => end := PushBare(text, at);
      }
    }

    /** A stretch of answer, read for calls; each turn of the loop moves on. */
    method Scan(text: string)
      modifies this
      ensures State() == WithPieces(calls, old(State()), Pieces(reader, text, 0))
    {
      hide BlockOf, BlockEnd, FirstOpening, WithPiece, Opens;
      var i := 0;
      while i < |text|
        invariant i <= |text|
        invariant WithPieces(calls, State(), Pieces(reader, text, i))
               == WithPieces(calls, old(State()), Pieces(reader, text, 0))
        decreases |text| - i
      {
        var next := FirstOpening(text, i);
        if next.None? {
          PushText(text[i..]);
          i := |text|;
        } else {
          ghost var before := State();
          PushText(text[i..next.value.at]);
          var end := PushBlock(text, next.value);
          TwoPieces(calls, before, Prose(text[i..next.value.at]), BlockOf(reader, text, next.value),
                    Pieces(reader, text, end));
          i := end;
        }
      }
    }

    /** The calls the text does not show, after everything it does. */
    method DrawRest()
      modifies this
      ensures out == WithRest(calls, old(State()))
    {
      while used < |calls|
        invariant WithRest(calls, State()) == WithRest(calls, old(State()))
        decreases |calls| - used
      {
        out := out + [Unshown(calls[used])];
        used := used + 1;
      }
    }

    /** The reply: before trimming it is written back exactly, and every call that ran is
        drawn exactly once, by step and then by place. */
    method Segments(text: string) returns (parts: seq<Part>, ghost whole: seq<Part>)
      requires State() == Drawing([], 0)
      modifies this
      ensures whole == DrawnReply(reader, calls, text)
      ensures Joined(whole) == Whole(text) && Called(whole) == calls
      ensures parts == Shown(whole) && Called(parts) == calls && SayWhatRan(whole)
    {
      hide Shown, SayWhatRan, WithRest, WithPieces, WithPiece, Pieces, Joined, Called, InStep, WellCut, Whole, Rejoined;
      var regions := Regions(text);
      for n := 0 to |regions|
        invariant State() == WithRegions(reader, calls, Drawing([], 0), regions[..n])
      {
        var r := regions[n];
        assert regions[..n + 1][..n] == regions[..n];
        if r.think {
          out := out + [Think(r.text, r.open)];
        } else {
          Scan(r.text);
        }
      }
      assert regions[..|regions|] == regions;
      RegionsDrawn(reader, calls, regions);
      ghost var drawn := State();
      DrawRest();
      RestDrawn(calls, drawn);
      whole := out;
      CallsAreShown(out);
      parts := Shown(out);
    }
  }

  lemma OnlyOneEnd(text: string, start: nat, a: Option<nat>, b: Option<nat>)
    requires EndsAt(text, start, a) && EndsAt(text, start, b)
    ensures a == b
  {
  }

  lemma TwoPieces(calls: seq<Call>, d: Drawing, a: Piece, b: Piece, rest: seq<Piece>)
    ensures WithPieces(calls, d, [a, b] + rest) == WithPieces(calls, WithPiece(calls, WithPiece(calls, d, a), b), rest)
  {
    hide WithPiece;
    var all := [a, b] + rest;
    assert all[1..] == [b] + rest && all[1..][1..] == rest;
  }
}
