/** What the agent builder shows of a runtime's answer: everything but draft blocks and result lines. */
module AgentText {
  import opened Options
  import opened Text

  const OPEN := "<agent_draft>"
  const CLOSE := "</agent_draft>"
  const MARKER := "ADRO_RESULT_JSON="

  predicate OccursAt(text: string, pattern: string, i: nat) {
    i + |pattern| <= |text| && text[i..i + |pattern|] == pattern
  }

  ghost predicate Contains(text: string, pattern: string) {
    exists i: nat :: OccursAt(text, pattern, i)
  }

  /** The first occurrence. */
  function IndexFrom(text: string, pattern: string, i: nat): (r: Option<nat>)
    requires i <= |text| + 1
    ensures r.Some? ==> r.value >= i && OccursAt(text, pattern, r.value)
    ensures r.Some? ==> forall k: nat | i <= k < r.value :: !OccursAt(text, pattern, k)
    ensures r.None? ==> forall k: nat | k >= i :: !OccursAt(text, pattern, k)
    decreases |text| + 1 - i
  {
    if i > |text| then None
    else if OccursAt(text, pattern, i) then Some(i)
    else IndexFrom(text, pattern, i + 1)
  }

  function Index(text: string, pattern: string): (r: Option<nat>)
    ensures r.Some? ==> OccursAt(text, pattern, r.value) && forall k: nat | k < r.value :: !OccursAt(text, pattern, k)
    ensures r.None? <==> !Contains(text, pattern)
  {
    IndexFrom(text, pattern, 0)
  }

  /** Removes draft blocks until no opening tag is left; an unclosed block runs to the end. */
  function Strip(text: string): (r: string)
    ensures !Contains(r, OPEN)
    ensures !Contains(text, OPEN) ==> r == text
    decreases |text|
  {
    match Index(text, OPEN)
    case None => text
    case Some(start) =>
      match Index(text[start..], CLOSE)
      case None => CutIsFree(text, start); text[..start]
      case Some(end) => Strip(text[..start] + text[start + end + |CLOSE|..])
  }

  lemma SliceOfSlice(text: string, from: nat, to: nat, i: nat, n: nat)
    requires from <= to <= |text| && i + n <= to - from
    ensures text[from..to][i..i + n] == text[from + i..from + i + n]
  {
    var inner, direct := text[from..to][i..i + n], text[from + i..from + i + n];
    assert forall k | 0 <= k < n :: inner[k] == direct[k];
  }

  lemma CutOccurs(text: string, start: nat, i: nat)
    requires start <= |text| && OccursAt(text[..start], OPEN, i)
    ensures OccursAt(text, OPEN, i) && i < start
  {
    assert text[0..start] == text[..start];
    SliceOfSlice(text, 0, start, i, |OPEN|);
  }

  lemma CutIsFree(text: string, start: nat)
    requires start <= |text| && forall k: nat | k < start :: !OccursAt(text, OPEN, k)
    ensures !Contains(text[..start], OPEN)
  {
    if Contains(text[..start], OPEN) {
      var i: nat :| OccursAt(text[..start], OPEN, i);
      CutOccurs(text, start, i);
    }
  }

  // ---- Lines ---------------------------------------------------------------------------------

  function Split(text: string): (lines: seq<string>)
    ensures lines != []
    decreases |text|
  {
    match Index(text, "\n")
    case None => [text]
    case Some(i) => [text[..i]] + Split(text[i + 1..])
  }

  function Join(lines: seq<string>): string {
    if lines == [] then "" else if |lines| == 1 then lines[0] else lines[0] + "\n" + Join(lines[1..])
  }

  function Kept(lines: seq<string>): seq<string> {
    if lines == [] then []
    else
      var init := Kept(lines[..|lines| - 1]);
      if Index(lines[|lines| - 1], MARKER).Some? then init else init + [lines[|lines| - 1]]
  }

  function Visible(text: string): string {
    Trim(Join(Kept(Split(Strip(Trim(text))))))
  }

  // ---- The loop ------------------------------------------------------------------------------

  method VisibleText(input: string) returns (text: string)
    ensures text == Visible(input)
  {
    hide Index, Trim, Split, Join;
    text := Trim(input);
    while true
      invariant Strip(text) == Strip(Trim(input))
      decreases |text|
    {
      var start := Index(text, OPEN);
      if start.None? {
        break;
      }
      var end := Index(text[start.value..], CLOSE);
      if end.None? {
        CutIsFree(text, start.value);
        text := text[..start.value];
        break;
      }
      text := text[..start.value] + text[start.value + end.value + |CLOSE|..];
    }
    var lines := Split(text);
    var visible: seq<string> := [];
    for i := 0 to |lines|
      invariant visible == Kept(lines[..i])
    {
      assert lines[..i + 1][..i] == lines[..i];
      if Index(lines[i], MARKER).None? {
        visible := visible + [lines[i]];
      }
    }
    assert lines[..|lines|] == lines;
    text := Trim(Join(visible));
  }

  // ---- What is left ----------------------------------------------------------------------------

  predicate SingleLine(pattern: string) {
    pattern != "" && '\n' !in pattern
  }

  lemma OccursInPart(text: string, pattern: string, from: nat, to: nat, i: nat)
    requires from <= i && i + |pattern| <= to <= |text| && OccursAt(text, pattern, i)
    ensures OccursAt(text[from..to], pattern, i - from)
  {
    SliceOfSlice(text, from, to, i - from, |pattern|);
  }

  /** A pattern without line breaks that occurs in joined lines occurs in one of them. */
  lemma {:induction false} JoinedFree(lines: seq<string>, pattern: string)
    requires SingleLine(pattern) && forall k | 0 <= k < |lines| :: !Contains(lines[k], pattern)
    ensures !Contains(Join(lines), pattern)
  {
    hide Contains;
    if |lines| == 0 {
      EmptyFree(pattern);
    } else if |lines| > 1 {
      JoinedFree(lines[1..], pattern);
      PairFree(lines[0], Join(lines[1..]), pattern);
    }
  }

  lemma EmptyFree(pattern: string)
    requires pattern != ""
    ensures !Contains("", pattern)
  {
  }

  lemma PairFree(a: string, b: string, pattern: string)
    requires SingleLine(pattern) && !Contains(a, pattern) && !Contains(b, pattern)
    ensures !Contains(a + "\n" + b, pattern)
  {
    hide Contains;
    if Contains(a + "\n" + b, pattern) {
      PairOccurs(a, b, pattern);
    }
  }

  lemma PairOccurs(a: string, b: string, pattern: string)
    requires SingleLine(pattern) && Contains(a + "\n" + b, pattern)
    ensures Contains(a, pattern) || Contains(b, pattern)
  {
    var text := a + "\n" + b;
    var i: nat :| OccursAt(text, pattern, i);
    assert text[|a|] == '\n';
    if i + |pattern| <= |a| {
      OccursInPart(text, pattern, 0, |a|, i);
      assert text[0..|a|] == a;
    } else if i > |a| {
      OccursInPart(text, pattern, |a| + 1, |text|, i);
      assert text[|a| + 1..|text|] == b;
    }
  }

  lemma {:induction false} SplitFree(text: string, pattern: string)
    requires !Contains(text, pattern)
    ensures forall k | 0 <= k < |Split(text)| :: !Contains(Split(text)[k], pattern)
    decreases |text|
  {
    hide Contains;
    var i := Index(text, "\n");
    if i.Some? {
      PartFree(text, pattern, 0, i.value);
      PartFree(text, pattern, i.value + 1, |text|);
      assert text[0..i.value] == text[..i.value] && text[i.value + 1..|text|] == text[i.value + 1..];
      SplitFree(text[i.value + 1..], pattern);
    }
  }

  lemma PartFree(text: string, pattern: string, from: nat, to: nat)
    requires from <= to <= |text| && !Contains(text, pattern)
    ensures !Contains(text[from..to], pattern)
  {
    hide Contains;
    if Contains(text[from..to], pattern) {
      PartOccurs(text, pattern, from, to);
    }
  }

  lemma PartOccurs(text: string, pattern: string, from: nat, to: nat)
    requires from <= to <= |text| && Contains(text[from..to], pattern)
    ensures Contains(text, pattern)
  {
    var i: nat :| OccursAt(text[from..to], pattern, i);
    SliceOfSlice(text, from, to, i, |pattern|);
    assert OccursAt(text, pattern, from + i);
  }

  lemma {:induction false} KeptLines(lines: seq<string>, pattern: string)
    requires forall k | 0 <= k < |lines| :: !Contains(lines[k], pattern)
    ensures forall k | 0 <= k < |Kept(lines)| :: !Contains(Kept(lines)[k], pattern) && !Contains(Kept(lines)[k], MARKER)
  {
    hide Contains;
    if lines != [] {
      KeptLines(lines[..|lines| - 1], pattern);
    }
  }

  lemma {:induction false} TrimIsPart(text: string)
    ensures exists from: nat, to: nat :: from <= to <= |text| && Trim(text) == text[from..to]
  {
    TrimLeftIsTail(text);
    var from: nat :| from <= |text| && TrimLeft(text) == text[from..];
    TrimRightIsInit(text[from..]);
    var n: nat :| n <= |text[from..]| && TrimRight(text[from..]) == text[from..][..n];
    assert text[from..][..n] == text[from..from + n];
  }

  lemma {:induction false} TrimLeftIsTail(text: string)
    ensures exists from: nat :: from <= |text| && TrimLeft(text) == text[from..]
  {
    if text != [] && IsSpace(text[0]) {
      TrimLeftIsTail(text[1..]);
      var from: nat :| from <= |text[1..]| && TrimLeft(text[1..]) == text[1..][from..];
      assert text[1..][from..] == text[from + 1..];
    } else {
      assert text == text[0..];
    }
  }

  lemma {:induction false} TrimRightIsInit(text: string)
    ensures exists n: nat :: n <= |text| && TrimRight(text) == text[..n]
  {
    if text != [] && IsSpace(text[|text| - 1]) {
      TrimRightIsInit(text[..|text| - 1]);
      var n: nat :| n <= |text| - 1 && TrimRight(text[..|text| - 1]) == text[..|text| - 1][..n];
      assert text[..|text| - 1][..n] == text[..n];
    } else {
      assert text == text[..|text|];
    }
  }

  lemma TrimFree(text: string, pattern: string)
    requires !Contains(text, pattern)
    ensures !Contains(Trim(text), pattern)
  {
    hide Contains, Trim;
    TrimIsPart(text);
    var from: nat, to: nat :| from <= to <= |text| && Trim(text) == text[from..to];
    PartFree(text, pattern, from, to);
  }

  /** Whatever the answer was, the visible text holds neither an opening draft tag nor the result marker, even
      where removing a block joins the pieces of a new tag. */
  lemma NoTagsShown(text: string)
    ensures !Contains(Visible(text), "<agent_draft>") && !Contains(Visible(text), "ADRO_RESULT_JSON=")
  {
    hide Contains, Strip, Split, Kept, Join, Trim;
    var stripped := Strip(Trim(text));
    SplitFree(stripped, OPEN);
    KeptLines(Split(stripped), OPEN);
    PatternsAreLines();
    JoinedFree(Kept(Split(stripped)), OPEN);
    JoinedFree(Kept(Split(stripped)), MARKER);
    TrimFree(Join(Kept(Split(stripped))), OPEN);
    TrimFree(Join(Kept(Split(stripped))), MARKER);
  }

  lemma PatternsAreLines()
    ensures SingleLine(OPEN) && SingleLine(MARKER)
  {
  }

  // ---- Nothing else is lost -----------------------------------------------------------------------

  lemma {:induction false} JoinSplit(text: string)
    ensures Join(Split(text)) == text
    decreases |text|
  {
    hide Contains;
    var i := Index(text, "\n");
    if i.Some? {
      JoinSplit(text[i.value + 1..]);
      assert ([text[..i.value]] + Split(text[i.value + 1..]))[1..] == Split(text[i.value + 1..]);
      assert text == text[..i.value] + "\n" + text[i.value + 1..];
    }
  }

  lemma {:induction false} KeptAll(lines: seq<string>)
    requires forall k | 0 <= k < |lines| :: !Contains(lines[k], MARKER)
    ensures Kept(lines) == lines
  {
    hide Contains;
    if lines != [] {
      KeptAll(lines[..|lines| - 1]);
    }
  }

  lemma {:induction false} TrimRightTwice(text: string)
    ensures TrimRight(TrimRight(text)) == TrimRight(text)
  {
    if text != [] && IsSpace(text[|text| - 1]) {
      TrimRightTwice(text[..|text| - 1]);
    }
  }

  lemma {:induction false} TrimLeftStops(text: string)
    ensures TrimLeft(text) == [] || !IsSpace(TrimLeft(text)[0])
  {
    if text != [] && IsSpace(text[0]) {
      TrimLeftStops(text[1..]);
    }
  }

  lemma TrimTwice(text: string)
    ensures Trim(Trim(text)) == Trim(text)
  {
    hide TrimRight;
    var left := TrimLeft(text);
    TrimLeftStops(text);
    TrimRightIsInit(left);
    TrimRightTwice(left);
    assert TrimLeft(TrimRight(left)) == TrimRight(left);
  }

  /** Text with no block and no marker is shown as it is, without its outer blanks. */
  lemma PlainTextShown(text: string)
    requires !Contains(Trim(text), "<agent_draft>") && !Contains(Trim(text), "ADRO_RESULT_JSON=")
    ensures Visible(text) == Trim(text)
  {
    hide Contains, Split, Kept, Join, Trim;
    assert Strip(Trim(text)) == Trim(text);
    SplitFree(Trim(text), MARKER);
    KeptAll(Split(Trim(text)));
    JoinSplit(Trim(text));
    TrimTwice(text);
  }

  /** Showing what is already visible changes nothing. */
  lemma VisibleIdempotent(text: string)
    ensures Visible(Visible(text)) == Visible(text)
  {
    hide Contains, Strip, Split, Kept, Join, Trim;
    var shown := Join(Kept(Split(Strip(Trim(text)))));
    TrimTwice(shown);
    NoTagsShown(text);
    PlainTextShown(Visible(text));
  }

  // ---- What a block hides ---------------------------------------------------------------------------

  /** A draft block and the text after it. */
  datatype Piece = Piece(draft: string, after: string)

  function Rendered(pieces: seq<Piece>): string {
    if pieces == [] then "" else OPEN + (pieces[0].draft + (CLOSE + (pieces[0].after + Rendered(pieces[1..]))))
  }

  function Outside(pieces: seq<Piece>): string {
    if pieces == [] then "" else pieces[0].after + Outside(pieces[1..])
  }

  /** Drafts are not nested, and the text around them holds no tag. */
  ghost predicate Flat(pieces: seq<Piece>) {
    forall i | 0 <= i < |pieces| :: !Contains(pieces[i].draft + CLOSE[..|CLOSE| - 1], CLOSE) && '<' !in pieces[i].after
  }

  /** How the tags start. */
  lemma TagStarts(text: string, i: nat)
    ensures OccursAt(text, OPEN, i) ==> i + 1 < |text| && text[i] == '<' && text[i + 1] == 'a'
    ensures OccursAt(text, CLOSE, i) ==> i + 1 < |text| && text[i] == '<' && text[i + 1] == '/'
  {
    if OccursAt(text, OPEN, i) {
      assert text[i] == text[i..i + |OPEN|][0] && text[i + 1] == text[i..i + |OPEN|][1];
    }
    if OccursAt(text, CLOSE, i) {
      assert text[i] == text[i..i + |CLOSE|][0] && text[i + 1] == text[i..i + |CLOSE|][1];
    }
  }

  lemma OneAngle()
    ensures (forall k | 0 < k < |OPEN| :: OPEN[k] != '<') && (forall k | 0 < k < |CLOSE| :: CLOSE[k] != '<')
    ensures OPEN[0] == CLOSE[0] == '<' && OPEN[1] == 'a' && CLOSE[1] == '/'
  {
  }

  lemma IndexIs(text: string, pattern: string, n: nat)
    requires OccursAt(text, pattern, n) && forall k: nat | k < n :: !OccursAt(text, pattern, k)
    ensures Index(text, pattern) == Some(n)
  {
    hide OccursAt;
  }

  lemma OccursInPartIff(text: string, pattern: string, from: nat, to: nat, i: nat)
    requires from <= i && i + |pattern| <= to <= |text|
    ensures OccursAt(text[from..to], pattern, i - from) <==> OccursAt(text, pattern, i)
  {
    SliceOfSlice(text, from, to, i - from, |pattern|);
  }

  /** The places of the parts of a text that holds a block. */
  lemma Parts(before: string, open: string, draft: string, close: string, rest: string)
    ensures var text := before + (open + (draft + (close + rest)));
            && text[|before|..|before| + |open|] == open && text[|before|..] == open + (draft + (close + rest))
            && text[..|before|] + text[|before| + (|open| + |draft|) + |close|..] == before + rest
  {
    var text := before + (open + (draft + (close + rest)));
    var n := |before| + (|open| + |draft|) + |close|;
    assert text[n..] == rest && text[..|before|] == before;
  }

  lemma OpensAt(before: string, rest: string)
    requires '<' !in before
    ensures Index(before + (OPEN + rest), OPEN) == Some(|before|)
  {
    hide Contains, OccursAt;
    var text := before + (OPEN + rest);
    Parts(before, OPEN, rest, "", "");
    assert rest + ("" + "") == rest;
    FoundAt(text, OPEN, |before|);
    forall k: nat | k < |before| ensures !OccursAt(text, OPEN, k) {
      TagStarts(text, k);
      assert text[k] == before[k];
    }
    IndexIs(text, OPEN, |before|);
  }

  lemma FoundAt(text: string, pattern: string, i: nat)
    requires i + |pattern| <= |text| && text[i..i + |pattern|] == pattern
    ensures OccursAt(text, pattern, i)
  {
  }

  /** No closing tag starts inside the block. */
  lemma ClosesAt(draft: string, rest: string)
    requires !Contains(draft + CLOSE[..|CLOSE| - 1], CLOSE)
    ensures Index(OPEN + (draft + (CLOSE + rest)), CLOSE) == Some(|OPEN| + |draft|)
  {
    hide OccursAt;
    var text, inner := OPEN + (draft + (CLOSE + rest)), draft + CLOSE[..|CLOSE| - 1];
    var n := |OPEN| + |draft|;
    BlockParts(OPEN, draft, CLOSE, rest);
    FoundAt(text, CLOSE, n);
    OneAngle();
    forall k: nat | k < n ensures !OccursAt(text, CLOSE, k) {
      if k < |OPEN| {
        TagStarts(text, k);
        assert text[k] == OPEN[k] && text[1] == OPEN[1];
      } else {
        OccursInPartIff(text, CLOSE, |OPEN|, n + |CLOSE| - 1, k);
        assert !OccursAt(inner, CLOSE, k - |OPEN|);
      }
    }
    IndexIs(text, CLOSE, n);
  }

  lemma BlockParts(open: string, draft: string, close: string, rest: string)
    requires close != ""
    ensures var text, n := open + (draft + (close + rest)), |open| + |draft|;
            text[n..n + |close|] == close && text[|open|..n + |close| - 1] == draft + close[..|close| - 1]
  {
  }

  lemma StripBlock(text: string, start: nat, end: nat)
    requires Index(text, OPEN) == Some(start) && Index(text[start..], CLOSE) == Some(end)
    ensures Strip(text) == Strip(text[..start] + text[start + end + |CLOSE|..])
  {
    hide Index, Contains;
  }

  /** The first block goes, from its opening tag to its first closing tag. */
  lemma FirstBlock(before: string, draft: string, rest: string)
    requires '<' !in before && !Contains(draft + CLOSE[..|CLOSE| - 1], CLOSE)
    ensures Strip(before + (OPEN + (draft + (CLOSE + rest)))) == Strip(before + rest)
  {
    hide Strip, Contains, Index;
    Parts(before, OPEN, draft, CLOSE, rest);
    OpensAt(before, draft + (CLOSE + rest));
    ClosesAt(draft, rest);
    StripBlock(before + (OPEN + (draft + (CLOSE + rest))), |before|, |OPEN| + |draft|);
  }

  /** Of an answer whose drafts are not nested exactly the text outside its drafts is left. */
  lemma {:induction false} FlatDraftsHidden(before: string, pieces: seq<Piece>)
    requires '<' !in before && Flat(pieces)
    ensures Strip(before + Rendered(pieces)) == before + Outside(pieces)
    decreases |pieces|
  {
    hide Strip, Contains;
    if pieces == [] {
      assert before + "" == before;
      NoAngleStays(before);
    } else {
      var piece, rest := pieces[0], pieces[1..];
      FirstBlock(before, piece.draft, piece.after + Rendered(rest));
      FlatDraftsHidden(before + piece.after, rest);
      Regroup(before, piece.after, Rendered(rest));
      Regroup(before, piece.after, Outside(rest));
    }
  }

  lemma Regroup(a: string, b: string, c: string)
    ensures a + b + c == a + (b + c)
  {
  }

  lemma NoAngleStays(text: string)
    requires '<' !in text
    ensures Strip(text) == text
  {
    hide OccursAt;
    forall i: nat ensures !OccursAt(text, OPEN, i) {
      TagStarts(text, i);
    }
  }

  /** Drafts that are nested are hidden only to the first closing tag: what follows it inside the outer draft is
      shown, for every such answer. */
  lemma NestedDraftShown(outer: string, inner: string, tail: string)
    requires '<' !in outer && '<' !in inner && '<' !in tail
    ensures Strip(OPEN + ((outer + OPEN + inner) + (CLOSE + (tail + CLOSE)))) == tail + CLOSE
  {
    hide Strip, Contains;
    NestedFlat(outer, inner);
    FirstBlock("", outer + OPEN + inner, tail + CLOSE);
    Empty(OPEN + ((outer + OPEN + inner) + (CLOSE + (tail + CLOSE))));
    Empty(tail + CLOSE);
    CloseStays(tail);
  }

  lemma Empty(text: string)
    ensures "" + text == text
  {
  }

  /** In a text whose only angle brackets start opening tags no closing tag starts. */
  lemma NestedFlat(outer: string, inner: string)
    requires '<' !in outer && '<' !in inner
    ensures !Contains(outer + OPEN + inner + CLOSE[..|CLOSE| - 1], CLOSE)
  {
    hide OccursAt;
    var text := outer + OPEN + inner + CLOSE[..|CLOSE| - 1];
    var n := |outer| + |OPEN| + |inner|;
    OneAngle();
    forall i: nat ensures !OccursAt(text, CLOSE, i) {
      TagStarts(text, i);
      TooLong(text, CLOSE, i);
      if i < |outer| {
        assert text[i] == outer[i];
      } else if i < |outer| + |OPEN| {
        assert text[i] == OPEN[i - |outer|] && text[|outer| + 1] == OPEN[1];
      } else if i < n {
        assert text[i] == inner[i - |outer| - |OPEN|];
      }
    }
  }

  lemma TooLong(text: string, pattern: string, i: nat)
    ensures i + |pattern| > |text| ==> !OccursAt(text, pattern, i)
  {
  }

  lemma CloseStays(tail: string)
    requires '<' !in tail
    ensures Strip(tail + CLOSE) == tail + CLOSE
  {
    hide OccursAt;
    var text := tail + CLOSE;
    OneAngle();
    forall i: nat ensures !OccursAt(text, OPEN, i) {
      TagStarts(text, i);
      TooLong(text, OPEN, i);
      if i < |tail| {
        assert text[i] == tail[i];
      } else if i < |text| {
        assert text[i] == CLOSE[i - |tail|] && text[|tail| + 1] == CLOSE[1];
      }
    }
  }
}
