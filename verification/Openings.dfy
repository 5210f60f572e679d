/** Which block of a reply is read first, and what each kind of block is read as. */
module Openings {
  import opened Conversation
  import opened Avoidance
  import opened Searching
  import opened Braces
  import opened Segments

  /** A block that may be read from `from` on: a fence or a tag wherever it stands, and a
      bare call first on its line. */
  ghost predicate MayOpen(text: string, from: nat, o: Opening) {
    from <= o.at &&
    match o
    case Fenced(at, tag) => tag in {TOOL_FENCE, JSON_FENCE} && At(tag, text, at)
    case Tagged(at) => At(TOOL_OPEN, text, at)
    case Bare(at) => BareCallAt(text, from, at)
  }

  /** No block opens before `at`. */
  ghost predicate NothingOpens(text: string, from: nat, at: nat) {
    forall o | MayOpen(text, from, o) :: at <= o.at
  }

  lemma FenceMark(text: string, at: int, tag: string)
    requires tag in {TOOL_FENCE, JSON_FENCE} && At(tag, text, at)
    ensures 0 <= at < |text| && text[at] == '`' && tag[3] == (if tag == TOOL_FENCE then 't' else 'j')
    ensures at + 3 < |text| && text[at + 3] == tag[3]
  {
    assert text[at..at + |tag|][0] == text[at] && text[at..at + |tag|][3] == text[at + 3];
  }

  lemma TagMark(text: string, at: int)
    requires At(TOOL_OPEN, text, at)
    ensures 0 <= at < |text| && text[at] == '<'
  {
    assert text[at..at + |TOOL_OPEN|][0] == text[at];
  }

  lemma BareMark(text: string, from: nat, at: nat)
    requires BareCallAt(text, from, at)
    ensures at < |text| && text[at] == '{' && OpensCall(text, at) && from <= at
  {
  }

  /** Two blocks that open at one place are one block. */
  lemma OneBlockAPlace(text: string, from: nat, o: Opening, p: Opening)
    requires MayOpen(text, from, o) && MayOpen(text, from, p) && o.at == p.at
    ensures o == p
  {
    hide At, BareCallAt;
    Mark(text, from, o);
    Mark(text, from, p);
  }

  lemma Mark(text: string, from: nat, o: Opening)
    requires MayOpen(text, from, o)
    ensures o.at < |text| && text[o.at] == if o.Fenced? then '`' else if o.Tagged? then '<' else '{'
    ensures o.Fenced? ==> o.at + 3 < |text| && o.tag == if text[o.at + 3] == 't' then TOOL_FENCE else JSON_FENCE
  {
    hide At, BareCallAt;
    match o
    case Fenced(at, tag) => FenceMark(text, at, tag);
    case Tagged(at) => TagMark(text, at);
    case Bare(at) => BareMark(text, from, at);
  }

  lemma FirstFenceMeaning(text: string, from: nat)
    ensures FirstFence(text, from).Some? ==> FirstFence(text, from).value.Fenced? && MayOpen(text, from, FirstFence(text, from).value)
    ensures forall o | MayOpen(text, from, o) && o.Fenced? ::
              FirstFence(text, from).Some? && FirstFence(text, from).value.at <= o.at
  {
    hide At;
  }

  /** What is read first is the first there is to read; and where nothing is read, nothing
      opens. */
  lemma FirstOpeningIsFirst(text: string, from: nat, o: Opening)
    requires from <= |text|
    ensures FirstOpening(text, from) == Some(o) <==> MayOpen(text, from, o) && NothingOpens(text, from, o.at)
    ensures FirstOpening(text, from).None? <==> NothingOpens(text, from, |text| + 1)
  {
    hide At, BareCallAt, FirstFence, OpensCall;
    FirstFenceMeaning(text, from);
    BareStartIsFirst(text, from);
    var first := FirstOpening(text, from);
    if first.Some? {
      FirstMayOpen(text, from);
      Mark(text, from, first.value);
      assert NothingOpens(text, from, first.value.at);
      if MayOpen(text, from, o) && o.at == first.value.at {
        OneBlockAPlace(text, from, o, first.value);
      }
    }
  }

  lemma FirstMayOpen(text: string, from: nat)
    requires from <= |text| && FirstOpening(text, from).Some?
    ensures MayOpen(text, from, FirstOpening(text, from).value)
  {
    hide At, BareCallAt, FirstFence, OpensCall;
    FirstFenceMeaning(text, from);
    BareStartIsFirst(text, from);
  }

  // ------------------------------------------------------------------ what a block is read as

  /** `o` is what is read next from `from` on. */
  ghost predicate Next(text: string, from: nat, o: Opening) {
    from <= |text| && MayOpen(text, from, o) && NothingOpens(text, from, o.at)
  }

  /** Nothing of `mark` stands between two places. */
  ghost predicate Clear(text: string, mark: string, from: nat, to: nat) {
    forall c: nat | from <= c < to :: !At(mark, text, c)
  }

  /** Where nothing opens, a stretch is prose. */
  lemma NothingIsRead(reader: Reader, text: string, from: nat)
    requires from < |text| && NothingOpens(text, from, |text| + 1)
    ensures Pieces(reader, text, from) == [Prose(text[from..])]
  {
    hide NothingOpens, FirstOpening, BlockOf, BlockEnd, Opens;
    FirstOpeningIsFirst(text, from, Tagged(0));
  }

  /** One block read: the prose before it, the block as it was written, and what follows. */
  lemma NextIsRead(reader: Reader, text: string, from: nat, o: Opening)
    requires Next(text, from, o)
    ensures from <= o.at < |text| && Opens(text, o)
    ensures Pieces(reader, text, from)
         == [Prose(text[from..o.at]), BlockOf(reader, text, o)] + Pieces(reader, text, BlockEnd(text, o))
  {
    hide NothingOpens, FirstOpening, BlockOf, BlockEnd, MayOpen, OpensCall;
    FirstOpeningIsFirst(text, from, o);
  }

  lemma NothingLeft(reader: Reader, text: string)
    ensures Pieces(reader, text, |text|) == []
  {
  }

  /** A block and what it was written as, whether it is a call or only text. */
  function ReadAs(call: bool, parsed: Option<Parsed>, raw: string): Piece {
    if call then CallText(parsed, raw) else Prose(raw)
  }

  lemma FoundAt(text: string, mark: string, from: nat, close: nat)
    requires from <= close && At(mark, text, close) && Clear(text, mark, from, close)
    ensures IndexOf(text, mark, from) == Some(close)
  {
  }

  lemma FoundNowhere(text: string, mark: string, from: nat)
    requires mark != "" && Clear(text, mark, from, |text|)
    ensures IndexOf(text, mark, from).None?
  {
  }

  lemma TagFits(text: string, at: nat)
    requires Opens(text, Tagged(at))
    ensures at + |TOOL_OPEN| <= |text|
    ensures forall close: nat :: At(TOOL_CLOSE, text, close) ==> close + |TOOL_CLOSE| <= |text|
  {
  }

  lemma BlockIs(reader: Reader, text: string, o: Opening, end: nat, call: Option<Option<Parsed>>)
    requires Opens(text, o) && o.at < |text| && BlockEnd(text, o) == end && CallIn(reader, text, o) == call
    ensures o.at < end <= |text|
    ensures BlockOf(reader, text, o) == match call case None => Prose(text[o.at..end]) case Some(p) => CallText(p, text[o.at..end])
  {
    hide CallIn, Opens;
  }

  lemma TaggedBlock(reader: Reader, text: string, at: nat, close: nat)
    requires Opens(text, Tagged(at)) && at < |text| && at + |TOOL_OPEN| <= close && close + |TOOL_CLOSE| <= |text|
    requires IndexOf(text, TOOL_CLOSE, at + |TOOL_OPEN|) == Some(close)
    ensures var parsed := Read(reader, text[at + |TOOL_OPEN|..close]);
            && BlockEnd(text, Tagged(at)) == close + |TOOL_CLOSE|
            && CallIn(reader, text, Tagged(at)) == Named(parsed)
  {
    hide OpensCall, MayOpenCall, ShowsJson, ObjectClose, At, Named, IndexOf;
  }

  lemma TaggedOpen(reader: Reader, text: string, at: nat)
    requires Opens(text, Tagged(at)) && at < |text| && IndexOf(text, TOOL_CLOSE, at + |TOOL_OPEN|).None?
    ensures BlockEnd(text, Tagged(at)) == |text| && CallIn(reader, text, Tagged(at)) == None
  {
    hide OpensCall, MayOpenCall, ShowsJson, ObjectClose, At, Named, IndexOf;
  }

  /** A call between tags is the text between them, parsed, where that has a name; and where
      it has none the tags are only text. */
  lemma TaggedIsRead(reader: Reader, text: string, from: nat, at: nat, close: nat)
    requires Next(text, from, Tagged(at)) && at + |TOOL_OPEN| <= close
    requires At(TOOL_CLOSE, text, close) && Clear(text, TOOL_CLOSE, at + |TOOL_OPEN|, close)
    ensures from <= at < close + |TOOL_CLOSE| <= |text|
    ensures var parsed := Read(reader, text[at + |TOOL_OPEN|..close]);
      Pieces(reader, text, from)
      == [Prose(text[from..at]), ReadAs(HasName(parsed), parsed, text[at..close + |TOOL_CLOSE|])]
         + Pieces(reader, text, close + |TOOL_CLOSE|)
  {
    hide Next, HasName, Pieces, BlockOf, BlockEnd, CallIn, Opens, Clear, At, IndexOf;
    NextIsRead(reader, text, from, Tagged(at));
    FoundAt(text, TOOL_CLOSE, at + |TOOL_OPEN|, close);
    AtFits(text, TOOL_CLOSE, close);
    TaggedBlock(reader, text, at, close);
    BlockIs(reader, text, Tagged(at), close + |TOOL_CLOSE|, Named(Read(reader, text[at + |TOOL_OPEN|..close])));
  }

  /** A tag never closed is text to the end of the stretch. */
  lemma TagLeftOpen(reader: Reader, text: string, from: nat, at: nat)
    requires Next(text, from, Tagged(at)) && Clear(text, TOOL_CLOSE, at + |TOOL_OPEN|, |text|)
    ensures from <= at < |text|
    ensures Pieces(reader, text, from) == [Prose(text[from..at]), Prose(text[at..])]
  {
    hide Next, Pieces, BlockOf, BlockEnd, CallIn, Opens, Clear, At, IndexOf;
    NextIsRead(reader, text, from, Tagged(at));
    NothingLeft(reader, text);
    FoundNowhere(text, TOOL_CLOSE, at + |TOOL_OPEN|);
    TaggedOpen(reader, text, at);
    BlockIs(reader, text, Tagged(at), |text|, None);
    assert text[at..|text|] == text[at..];
  }

  /** Where the body of a fence begins: below its mark, or right after it. */
  predicate BodyAt(text: string, mark: nat, body: nat) {
    body <= |text| && body == if mark < |text| && text[mark] == '\n' then mark + 1 else mark
  }

  lemma FencedBlock(reader: Reader, text: string, at: nat, tag: string, body: nat, close: nat)
    requires Opens(text, Fenced(at, tag)) && at < |text| && BodyAt(text, at + |tag|, body)
    requires body <= close && close + |FENCE| <= |text| && IndexOf(text, FENCE, body) == Some(close)
    ensures var parsed := Read(reader, text[body..close]);
            && BlockEnd(text, Fenced(at, tag)) == close + |FENCE|
            && CallIn(reader, text, Fenced(at, tag))
               == if tag == TOOL_FENCE || (MayHoldCall(text, body, close) && HasName(parsed)) then Some(parsed) else None
  {
    hide OpensCall, MayOpenCall, ShowsJson, ObjectClose, At, IndexOf, HasName, MayHoldCall;
    FencesDiffer();
    ShowsJsonMeaning(text, body, Some(close));
  }

  lemma FencedOpen(reader: Reader, text: string, at: nat, tag: string, body: nat)
    requires Opens(text, Fenced(at, tag)) && at < |text| && BodyAt(text, at + |tag|, body)
    requires IndexOf(text, FENCE, body).None?
    ensures BlockEnd(text, Fenced(at, tag)) == |text|
    ensures CallIn(reader, text, Fenced(at, tag))
         == if tag == TOOL_FENCE || MayHoldCall(text, body, |text|) then Some(Read(reader, text[body..])) else None
  {
    hide OpensCall, MayOpenCall, ShowsJson, ObjectClose, At, IndexOf, HasName, MayHoldCall;
    FencesDiffer();
    ShowsJsonMeaning(text, body, None);
  }

  lemma FencesDiffer()
    ensures TOOL_FENCE != JSON_FENCE
  {
    assert TOOL_FENCE[3] == 't' && JSON_FENCE[3] == 'j';
  }

  /** A fenced block is what stands below its mark. Under our own mark that is a call whether
      it parses or not; under the mark of JSON only where it may be one and has a name. */
  lemma FenceIsRead(reader: Reader, text: string, from: nat, at: nat, tag: string, body: nat, close: nat)
    requires Next(text, from, Fenced(at, tag)) && BodyAt(text, at + |tag|, body) && body <= close
    requires At(FENCE, text, close) && Clear(text, FENCE, body, close)
    ensures from <= at < close + |FENCE| <= |text|
    ensures var parsed := Read(reader, text[body..close]);
      Pieces(reader, text, from)
      == [Prose(text[from..at]),
          ReadAs(tag == TOOL_FENCE || (MayHoldCall(text, body, close) && HasName(parsed)), parsed, text[at..close + |FENCE|])]
         + Pieces(reader, text, close + |FENCE|)
  {
    hide Next, HasName, Pieces, BlockOf, BlockEnd, CallIn, Opens, Clear, At, IndexOf, MayHoldCall;
    NextIsRead(reader, text, from, Fenced(at, tag));
    FoundAt(text, FENCE, body, close);
    AtFits(text, FENCE, close);
    FencedBlock(reader, text, at, tag, body, close);
    BlockIs(reader, text, Fenced(at, tag), close + |FENCE|, CallIn(reader, text, Fenced(at, tag)));
  }

  lemma AtFits(text: string, mark: string, close: nat)
    requires At(mark, text, close)
    ensures close + |mark| <= |text|
  {
  }

  /** A fence never closed is read to the end of the stretch. */
  lemma FenceLeftOpen(reader: Reader, text: string, from: nat, at: nat, tag: string, body: nat)
    requires Next(text, from, Fenced(at, tag)) && BodyAt(text, at + |tag|, body)
    requires Clear(text, FENCE, body, |text|)
    ensures from <= at < |text|
    ensures Pieces(reader, text, from)
         == [Prose(text[from..at]),
             ReadAs(tag == TOOL_FENCE || MayHoldCall(text, body, |text|), Read(reader, text[body..]), text[at..])]
  {
    hide Next, Pieces, BlockOf, BlockEnd, CallIn, Opens, Clear, At, IndexOf, MayHoldCall;
    NextIsRead(reader, text, from, Fenced(at, tag));
    NothingLeft(reader, text);
    FoundNowhere(text, FENCE, body);
    FencedOpen(reader, text, at, tag, body);
    BlockIs(reader, text, Fenced(at, tag), |text|, CallIn(reader, text, Fenced(at, tag)));
    assert text[at..|text|] == text[at..];
  }

  /** What a fenced body may hold: its first characters could become a call, or the text from
      there on is one. */
  ghost predicate MayHoldCall(text: string, body: nat, end: nat)
    requires body <= end <= |text|
  {
    || (exists ahead, inner, after :: Spaced(ahead) && Spaced(inner) && Spaced(after)
          && text[body..if end <= body + 16 then end else body + 16] <= ahead + CallHead(inner, after))
    || (exists ahead, inner, after :: Spaced(ahead) && Spaced(inner) && Spaced(after)
          && ahead + CallHead(inner, after) <= text[body..])
  }

  lemma ShowsJsonMeaning(text: string, body: nat, close: Option<nat>)
    requires body <= |text| && (close.Some? ==> body <= close.value <= |text|)
    ensures ShowsJson(text, body, close) <==> !MayHoldCall(text, body, close.GetOr(|text|))
  {
    hide MayOpenCall, OpensCall, Spaced, CallHead;
    var end := close.GetOr(|text|);
    var inside := text[body..end];
    var first := if |inside| <= 16 then inside else inside[..16];
    assert first == text[body..if end <= body + 16 then end else body + 16];
    MayOpenCallMeaning(first);
    OpensAheadMeaning(text, body);
  }

  lemma OpensAheadMeaning(text: string, body: nat)
    requires body <= |text|
    ensures OpensCall(text, SkipSpaces(text, body))
       <==> exists ahead, inner, after ::
              Spaced(ahead) && Spaced(inner) && Spaced(after) && ahead + CallHead(inner, after) <= text[body..]
  {
    hide OpensCall, Spaced, CallHead, SkipSpaces;
    var k := SkipSpaces(text, body);
    SkippedIsSpaced(text, body);
    OpensCallMeaning(text, k);
    if OpensCall(text, k) {
      var inner, after :| Spaced(inner) && Spaced(after) && CallHead(inner, after) <= text[k..];
      PrefixPlus(text[body..k], CallHead(inner, after), text[k..]);
    }
    forall ahead, inner, after
      | Spaced(ahead) && Spaced(inner) && Spaced(after) && ahead + CallHead(inner, after) <= text[body..]
      ensures OpensCall(text, k)
    {
      HeadAhead(text, body, ahead, inner, after);
      HeadOpens(text, body + |ahead|, inner, after);
    }
  }

  lemma HeadAhead(text: string, body: nat, ahead: string, inner: string, after: string)
    requires body <= |text| && Spaced(ahead) && ahead + CallHead(inner, after) <= text[body..]
    ensures body + |ahead| <= |text| && CallHead(inner, after) <= text[body + |ahead|..]
    ensures SkipSpaces(text, body) == body + |ahead|
  {
    hide CallHead;
    var k, rest := body + |ahead|, text[body..];
    HeadIs(inner, after);
    assert rest[..|ahead|] == ahead;
    assert forall i | 0 <= i < |ahead| :: text[body + i] == rest[i] == ahead[i];
    assert text[k..] == rest[|ahead|..];
    assert rest[|ahead|..][..|CallHead(inner, after)|] == CallHead(inner, after);
    assert text[k] == text[k..][0] == CallHead(inner, after)[0];
    assert forall i | body <= i < k :: text[i] == ahead[i - body];
    SkipsAll(text, body, k);
  }

  /** A bare object runs to the brace that closes it, and is a call where it has a name. */
  lemma BareIsRead(reader: Reader, text: string, from: nat, at: nat, end: nat)
    requires Next(text, from, Bare(at)) && EndsAt(text, at, Some(end))
    ensures from <= at < end <= |text|
    ensures var parsed := Read(reader, text[at..end]);
      Pieces(reader, text, from)
      == [Prose(text[from..at]), ReadAs(HasName(parsed), parsed, text[at..end])] + Pieces(reader, text, end)
  {
    hide Next, Pieces, HasName, EndsAt, OpensCall;
    NextIsRead(reader, text, from, Bare(at));
    OnlyOneEnd(text, at, ObjectClose(text, at), Some(end));
  }

  /** One never closed is text. */
  lemma BareLeftOpen(reader: Reader, text: string, from: nat, at: nat)
    requires Next(text, from, Bare(at)) && EndsAt(text, at, None)
    ensures from <= at < |text|
    ensures Pieces(reader, text, from) == [Prose(text[from..at]), Prose(text[at..])]
  {
    hide Next, EndsAt, OpensCall;
    NextIsRead(reader, text, from, Bare(at));
    OnlyOneEnd(text, at, ObjectClose(text, at), None);
    assert text[at..|text|] == text[at..];
  }
}
