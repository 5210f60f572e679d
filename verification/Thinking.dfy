/** The thoughts of a reply told from its answers. */
module Thinking {
  import opened Conversation
  import opened Avoidance
  import opened Searching

  const OPEN := "<think>"
  const CLOSE := "</think>"

  datatype Region = Region(think: bool, text: string, open: bool)

  /** The template opened the first block in the prompt, so only its close is in the reply. */
  predicate Headless(text: string) {
    var close := IndexOf(text, CLOSE, 0);
    close.Some? && IndexOf(text[..close.value], OPEN, 0).None?
  }

  /** A reply begins inside a thought exactly where its first closing tag has no opening tag
      whole ahead of it. */
  lemma HeadlessMeaning(text: string)
    ensures Headless(text) <==> exists close ::
      && At("</think>", text, close) && (forall k | 0 <= k < close :: !At("</think>", text, k))
      && (forall k | 0 <= k <= close - 7 :: !At("<think>", text, k))
  {
    hide At;
    var first := IndexOf(text, CLOSE, 0);
    if first.Some? {
      var close := first.value;
      TagFits(CLOSE, text, close);
      forall k: nat | k + 7 <= close ensures At(OPEN, text, k) <==> At(OPEN, text[..close], k) {
        Ahead(text, close, k);
      }
      if !Headless(text) {
        TagFits(OPEN, text[..close], IndexOf(text[..close], OPEN, 0).value);
      }
      forall k: nat | At(OPEN, text[..close], k) ensures k + 7 <= close { TagFits(OPEN, text[..close], k); }
      forall other | At(CLOSE, text, other) && forall k | 0 <= k < other :: !At(CLOSE, text, k) ensures other == close {
        StartsSomewhere(CLOSE, text, other);
      }
    } else {
      forall close ensures !At(CLOSE, text, close) {
        if At(CLOSE, text, close) { StartsSomewhere(CLOSE, text, close); }
      }
    }
  }

  lemma Ahead(text: string, close: nat, k: nat)
    requires k + 7 <= close <= |text|
    ensures At(OPEN, text, k) <==> At(OPEN, text[..close], k)
  {
    assert text[..close][k..k + 7] == text[k..k + 7];
  }

  lemma StartsSomewhere(tag: string, text: string, k: int)
    requires At(tag, text, k)
    ensures k >= 0
  {
  }

  /** The reply with the opening tag the prompt held put back. */
  function Whole(text: string): string {
    if Headless(text) then OPEN + text else text
  }

  /** The cut from `at` on, outside any thought: an answer up to the next opening tag, the
      thought up to its closing one, and so on. */
  function CutFrom(text: string, at: nat): (regions: seq<Region>)
    requires at <= |text|
    ensures regions != []
    decreases |text| - at
  {
    var open := IndexOf(text, OPEN, at);
    if open.None? then [Region(false, text[at..], false)]
    else
      var answer, body := Region(false, text[at..open.value], false), open.value + |OPEN|;
      var end := IndexOf(text, CLOSE, body);
      if end.None? then [answer, Region(true, text[body..], true)]
      else [answer, Region(true, text[body..end.value], false)] + CutFrom(text, end.value + |CLOSE|)
  }

  function RegionsOf(text: string): (regions: seq<Region>)
    ensures regions != []
  {
    var close := IndexOf(text, CLOSE, 0);
    if Headless(text)
    then [Region(true, text[..close.value], false)] + CutFrom(text, close.value + |CLOSE|)
    else CutFrom(text, 0)
  }

  function Written(r: Region): string {
    if r.think then OPEN + r.text + (if r.open then "" else CLOSE) else r.text
  }

  function Rejoined(regions: seq<Region>): string {
    if regions == [] then "" else Rejoined(regions[..|regions| - 1]) + Written(regions[|regions| - 1])
  }

  /** Answers hold no opening tag, thoughts no closing one, and only the last may be left open. */
  ghost predicate WellCut(regions: seq<Region>) {
    forall n | 0 <= n < |regions| ::
      && (regions[n].think ==> !Occurs(CLOSE, regions[n].text))
      && (!regions[n].think ==> !Occurs(OPEN, regions[n].text) && !regions[n].open)
      && (regions[n].open ==> n == |regions| - 1)
      && (n + 1 < |regions| ==> regions[n].think != regions[n + 1].think)
  }

  lemma NoneBefore(text: string, pattern: string, from: nat, end: nat)
    requires from <= end <= |text| && pattern != ""
    ensures (forall k | from <= k < end :: !At(pattern, text, k)) ==> !Occurs(pattern, text[from..end])
  {
    if k :| At(pattern, text[from..end], k) {
      var slice := text[from..end];
      assert k + |pattern| <= |slice| && slice[k..k + |pattern|] == pattern;
      assert forall i | 0 <= i < |pattern| :: text[from + k + i] == slice[k + i] == pattern[i];
      assert At(pattern, text, from + k);
    }
  }

  lemma OneMoreRegion(regions: seq<Region>, r: Region)
    ensures Rejoined(regions + [r]) == Rejoined(regions) + Written(r)
  {
    assert (regions + [r])[..|regions|] == regions;
  }

  /** Everything before `at` is cut, and what is last is a closed thought, if anything is. */
  ghost predicate CutTo(text: string, head: string, regions: seq<Region>, at: nat) {
    && at <= |text| && WellCut(regions) && Rejoined(regions) == head + text[..at]
    && (regions != [] ==> regions[|regions| - 1].think && !regions[|regions| - 1].open)
  }

  /** What the template's own opening tag begins, if the reply begins inside a thought. */
  lemma HeadCut(text: string, close: nat)
    requires At(CLOSE, text, close) && forall k | 0 <= k < close :: !At(CLOSE, text, k)
    ensures CutTo(text, OPEN, [Region(true, text[..close], false)], close + |CLOSE|)
  {
    NoneBefore(text, CLOSE, 0, close);
    var r := Region(true, text[..close], false);
    assert text[0..close] == text[..close] && text[..close + |CLOSE|] == text[..close] + CLOSE;
    OneMoreRegion([], r);
    assert [] + [r] == [r];
  }

  /** An answer, up to the next thought or the end. */
  lemma AnswerCut(text: string, head: string, regions: seq<Region>, at: nat, end: nat)
    requires CutTo(text, head, regions, at) && at <= end <= |text|
    requires forall k | at <= k < end :: !At(OPEN, text, k)
    ensures var more := regions + [Region(false, text[at..end], false)];
            WellCut(more) && Rejoined(more) == head + text[..end]
  {
    hide At, Occurs, Rejoined;
    NoneBefore(text, OPEN, at, end);
    OneMoreRegion(regions, Region(false, text[at..end], false));
    assert text[..end] == text[..at] + text[at..end];
  }

  lemma ThoughtCut(text: string, head: string, regions: seq<Region>, open: nat, end: nat, closed: bool)
    requires WellCut(regions) && regions != [] && !regions[|regions| - 1].think
    requires open <= |text| && Rejoined(regions) == head + text[..open] && At(OPEN, text, open)
    requires open + |OPEN| <= end <= |text| && forall k | open + |OPEN| <= k < end :: !At(CLOSE, text, k)
    requires if closed then At(CLOSE, text, end) else end == |text|
    ensures var more := regions + [Region(true, text[open + |OPEN|..end], !closed)];
            if closed then CutTo(text, head, more, end + |CLOSE|) else WellCut(more) && Rejoined(more) == head + text
  {
    hide Occurs, Rejoined, At, WellCut;
    var body, r := open + |OPEN|, Region(true, text[open + |OPEN|..end], !closed);
    TagFits(OPEN, text, open);
    NoneBefore(text, CLOSE, body, end);
    OneMoreRegion(regions, r);
    OneMoreCut(regions, r);
    assert text[..end] == text[..open] + OPEN + text[body..end];
    if closed {
      TagFits(CLOSE, text, end);
      assert text[..end + |CLOSE|] == text[..end] + CLOSE;
    } else {
      assert text[..end] == text;
    }
  }

  lemma OneMoreCut(regions: seq<Region>, r: Region)
    requires WellCut(regions) && regions != [] && !regions[|regions| - 1].think
    requires r.think && !Occurs(CLOSE, r.text)
    ensures WellCut(regions + [r])
  {
    hide Occurs;
  }

  /** One answer, and the thought that follows it, if one does. */
  method CutThought(text: string, ghost head: string, regions: seq<Region>, at: nat)
    returns (more: seq<Region>, next: Option<nat>)
    requires CutTo(text, head, regions, at)
    ensures next.None? ==> more == regions + CutFrom(text, at) && WellCut(more) && Rejoined(more) == head + text
    ensures next.Some? ==> at < next.value && CutTo(text, head, more, next.value)
    ensures next.Some? ==> more + CutFrom(text, next.value) == regions + CutFrom(text, at)
  {
    hide Occurs, Rejoined, At, WellCut, CutFrom;
    CutOnce(text, at);
    var open := IndexOf(text, OPEN, at);
    if open.None? {
      AnswerCut(text, head, regions, at, |text|);
      assert text[at..|text|] == text[at..] && text[..|text|] == text;
      return regions + [Region(false, text[at..], false)], None;
    }
    TagFits(OPEN, text, open.value);
    AnswerCut(text, head, regions, at, open.value);
    more := regions + [Region(false, text[at..open.value], false)];
    var body := open.value + |OPEN|;
    var end := IndexOf(text, CLOSE, body);
    if end.None? {
      ThoughtCut(text, head, more, open.value, |text|, false);
      assert text[body..|text|] == text[body..];
      return more + [Region(true, text[body..], true)], None;
    }
    TagFits(CLOSE, text, end.value);
    ThoughtCut(text, head, more, open.value, end.value, true);
    more := more + [Region(true, text[body..end.value], false)];
    next := Some(end.value + |CLOSE|);
  }

  method Regions(text: string) returns (regions: seq<Region>)
    ensures regions == RegionsOf(text)
    ensures WellCut(regions) && Rejoined(regions) == Whole(text)
  {
    hide Occurs, Rejoined, At, WellCut, CutFrom, CutTo;
    regions := [];
    var at := 0;
    var close := IndexOf(text, CLOSE, 0);
    ghost var head := if Headless(text) then OPEN else "";
    NothingCut(text);
    if close.Some? {
      TagFits(CLOSE, text, close.value);
    }
    if close.Some? && IndexOf(text[..close.value], OPEN, 0).None? {
      HeadCut(text, close.value);
      regions := [Region(true, text[..close.value], false)];
      at := close.value + |CLOSE|;
    }
    assert CutTo(text, head, regions, at);
    while true
      invariant at <= |text| && CutTo(text, head, regions, at)
      invariant regions + CutFrom(text, at) == RegionsOf(text)
      decreases |text| - at
    {
      var next;
      regions, next := CutThought(text, head, regions, at);
      if next.None? {
        return;
      }
      at := next.value;
      CutToFits(text, head, regions, at);
    }
  }

  lemma CutToFits(text: string, head: string, regions: seq<Region>, at: nat)
    requires CutTo(text, head, regions, at)
    ensures at <= |text|
  {
  }

  lemma CutOnce(text: string, at: nat)
    requires at <= |text|
    ensures var open := IndexOf(text, OPEN, at);
            if open.None? then CutFrom(text, at) == [Region(false, text[at..], false)]
            else
              var answer, body := Region(false, text[at..open.value], false), open.value + |OPEN|;
              var end := IndexOf(text, CLOSE, body);
              CutFrom(text, at) ==
                if end.None? then [answer, Region(true, text[body..], true)]
                else [answer, Region(true, text[body..end.value], false)] + CutFrom(text, end.value + |CLOSE|)
  {
    hide At;
  }

  lemma TagFits(tag: string, text: string, k: nat)
    requires At(tag, text, k)
    ensures k + |tag| <= |text| && text[k..k + |tag|] == tag
  {
  }

  lemma NothingCut(text: string)
    ensures CutTo(text, "", [], 0)
  {
  }
}
