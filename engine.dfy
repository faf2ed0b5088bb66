/**
 * The pending-space engine (`SuggestionEngine`): a space press is held back,
 * candidates (join, period, comma, space) are offered, and a confirmation
 * timer commits the space on its own if nothing was chosen. The input
 * connection is a `TextSurface?` (null when there is no connection) holding
 * the text before and after the caret; the Handler timer is an explicit
 * posted callback that `OnTimeout` runs.
 */
module Engine {
  import opened Wrappers
  import opened Chars

  /** How many characters the engine reads on each side of the caret. */
  const Lookaround: nat := 40

  /** The edited document as the input connection shows it: the text before and after the caret. */
  class TextSurface {
    var before: string
    var after: string
    /** Whether `getTextBeforeCursor`/`getTextAfterCursor` answer (they may return null). */
    var readable: bool
    var batchDepth: nat

    constructor (before: string, after: string, readable: bool)
      ensures this.before == before && this.after == after && this.readable == readable && batchDepth == 0
    {
      this.before, this.after, this.readable, batchDepth := before, after, readable, 0;
    }

    function Text(): string
      reads this
    {
      before + after
    }

    /** `commitText(text, 1)`: inserts at the caret and leaves the caret after the inserted text. */
    method CommitText(text: string)
      modifies this
      ensures before == old(before) + text && after == old(after)
      ensures readable == old(readable) && batchDepth == old(batchDepth)
    {
      before := before + text;
    }

    /** `deleteSurroundingText(b, a)`: removes up to `b` characters before and `a` after the caret. */
    method DeleteSurroundingText(b: nat, a: nat)
      modifies this
      ensures before == old(before)[..|old(before)| - Min(b, |old(before)|)]
      ensures after == old(after)[Min(a, |old(after)|)..]
      ensures readable == old(readable) && batchDepth == old(batchDepth)
    {
      before := before[..|before| - Min(b, |before|)];
      after := after[Min(a, |after|)..];
    }

    method BeginBatchEdit()
      modifies this
      ensures before == old(before) && after == old(after) && readable == old(readable)
      ensures batchDepth == old(batchDepth) + 1
    {
      batchDepth := batchDepth + 1;
    }

    method EndBatchEdit()
      modifies this
      ensures before == old(before) && after == old(after) && readable == old(readable)
      ensures batchDepth == if old(batchDepth) > 0 then old(batchDepth) - 1 else 0
    {
      if batchDepth > 0 {
        batchDepth := batchDepth - 1;
      }
    }
  }

  /** Kotlin's `takeWhile { !it.isWhitespace() }`: the longest whitespace-free prefix. */
  function LeadingWord(s: string): (w: string)
    ensures w <= s && NoWhitespace(w)
    ensures |w| == |s| || IsWhitespace(s[|w|])
    decreases |s|
  {
    if |s| > 0 && !IsWhitespace(s[0]) then [s[0]] + LeadingWord(s[1..]) else ""
  }

  /** Kotlin's `takeLastWhile { !it.isWhitespace() }`: the longest whitespace-free suffix. */
  function TrailingWord(s: string): (w: string)
    ensures |w| <= |s| && w == s[|s| - |w|..] && NoWhitespace(w)
    ensures |w| == |s| || IsWhitespace(s[|s| - |w| - 1])
    decreases |s|
  {
    if |s| > 0 && !IsWhitespace(s[|s| - 1]) then TrailingWord(s[..|s| - 1]) + [s[|s| - 1]] else ""
  }

  /** L: the trailing word of the (at most 40-character) text before the caret. */
  function LeftWord(before: string): (l: string)
    ensures NoWhitespace(l) && |l| <= Lookaround
    ensures |l| <= |before| && l == before[|before| - |l|..]
    ensures |l| == Min(Lookaround, |before|) || IsWhitespace(before[|before| - |l| - 1])
  {
    var n := Min(Lookaround, |before|);
    var window := before[|before| - n..];
    var l := TrailingWord(window);
    assert window[n - |l|..] == before[|before| - |l|..];
    assert |l| < n ==> window[n - |l| - 1] == before[|before| - |l| - 1];
    l
  }

  /** R: the leading word of the (at most 40-character) text after the caret. */
  function RightWord(after: string): (r: string)
    ensures NoWhitespace(r) && |r| <= Lookaround && r <= after
    ensures |r| == Min(Lookaround, |after|) || IsWhitespace(after[|r|])
  {
    LeadingWord(after[..Min(Lookaround, |after|)])
  }

  /** `extractAround` once both reads have answered. */
  function Around(before: string, after: string): (string, string) {
    (LeftWord(before), RightWord(after))
  }

  /** `extractAround(ic)`: null without a connection or when either read returns null. */
  function ExtractAround(ic: TextSurface?): Option<(string, string)>
    reads ic
  {
    if ic == null || !ic.readable then None else Some(Around(ic.before, ic.after))
  }

  /** What `extractAround` answers is a word ending at the caret and a word starting at it, each within the
      40-character window. */
  lemma ExtractAroundWords(ic: TextSurface)
    requires ic.readable
    ensures var (l, r) := ExtractAround(ic).value;
      && NoWhitespace(l) && |l| <= Lookaround && |l| <= |ic.before| && l == ic.before[|ic.before| - |l|..]
      && NoWhitespace(r) && |r| <= Lookaround && r <= ic.after
  {
  }

  /** A whitespace-free suffix that starts the string or follows whitespace is the trailing word. */
  lemma TrailingWordIs(s: string, l: string)
    requires |l| <= |s| && l == s[|s| - |l|..] && NoWhitespace(l)
    requires |l| == |s| || IsWhitespace(s[|s| - |l| - 1])
    ensures TrailingWord(s) == l
  {
  }

  /** A whitespace-free prefix that ends the string or precedes whitespace is the leading word. */
  lemma LeadingWordIs(s: string, r: string)
    requires r <= s && NoWhitespace(r)
    requires |r| == |s| || IsWhitespace(s[|r|])
    ensures LeadingWord(s) == r
  {
  }

  /** The word before the caret is taken whole when whitespace or the document start bounds it. */
  lemma LeftWordIs(b: string, l: string)
    requires NoWhitespace(l) && |l| <= Lookaround
    requires b == [] || IsWhitespace(b[|b| - 1])
    ensures LeftWord(b + l) == l
  {
    var before := b + l;
    var w := LeftWord(before);
    assert |w| == |l|;
    assert w == before[|b|..] == l;
  }

  /** The word after the caret is taken whole when whitespace or the document end bounds it. */
  lemma RightWordIs(r: string, a: string)
    requires NoWhitespace(r) && |r| <= Lookaround
    requires a == [] || IsWhitespace(a[0])
    ensures RightWord(r + a) == r
  {
    var after := r + a;
    var m := Min(Lookaround, |after|);
    var ahead := after[..m];
    assert r <= ahead;
    if |r| < m {
      assert ahead[|r|] == a[0];
    }
    LeadingWordIs(ahead, r);
  }

  datatype CandidateType = Join | Period | Comma | Space
  /** A candidate chip: its text (presentation only) and the edit it performs. */
  datatype Candidate = Candidate(text: string, kind: CandidateType)

  /** The two words would make one word: both present, L ends and R starts with a letter. */
  predicate InsideWord(l: string, r: string) {
    l != [] && r != [] && IsLetter(l[|l| - 1]) && IsLetter(r[0])
  }

  /** The fixed order of the candidate bar. */
  function Rank(k: CandidateType): nat {
    match k
    case Join => 0
    case Period => 1
    case Comma => 2
    case Space => 3
  }

  function Kinds(res: seq<Candidate>): (ks: seq<CandidateType>)
    ensures |ks| == |res|
  {
    seq(|res|, i requires 0 <= i < |res| => res[i].kind)
  }

  /** `generateCandidates` given what `extractAround` returned: join first and only inside a word,
      period then comma exactly when there is context, space always and last. */
  function GenerateCandidates(ctx: Option<(string, string)>): (res: seq<Candidate>)
    ensures Kinds(res) == if ctx.None? then [Space]
      else if InsideWord(ctx.value.0, ctx.value.1) then [Join, Period, Comma, Space]
      else [Period, Comma, Space]
    ensures ctx.Some? && res[0].kind == Join ==> res[0].text == "Склеить: " + (ctx.value.0 + ctx.value.1)
  {
    var tail := [Candidate("␣", Space)];
    if ctx.None? then tail
    else
      var (l, r) := ctx.value;
      var punctuation := [Candidate(". ", Period), Candidate(", ", Comma)];
      if InsideWord(l, r) then [Candidate("Склеить: " + (l + r), Join)] + punctuation + tail
      else punctuation + tail
  }

  /** The text a non-join candidate commits. */
  function Committed(k: CandidateType): string {
    match k
    case Join => ""
    case Period => ". "
    case Comma => ", "
    case Space => " "
  }

  /** The candidate bar never breaks the fixed order and always ends in the space candidate. */
  lemma CandidateOrder(ctx: Option<(string, string)>)
    ensures var res := GenerateCandidates(ctx);
      && |res| in {1, 3, 4}
      && res[|res| - 1].kind == Space
      && (forall i, j :: 0 <= i < j < |res| ==> Rank(res[i].kind) < Rank(res[j].kind))
      && (forall i :: 0 <= i < |res| && res[i].kind == Join ==> i == 0)
      && (Period in Kinds(res) <==> ctx.Some?)
      && (Comma in Kinds(res) <==> ctx.Some?)
  {
    var res := GenerateCandidates(ctx);
    assert forall i :: 0 <= i < |res| ==> res[i].kind == Kinds(res)[i];
  }

  /** Typing "cat" "fish" around the caret offers join, period, comma and space, in that order. */
  lemma CatFishCandidates()
    ensures var res := GenerateCandidates(Some(("cat", "fish")));
      |res| == 4 && res[0].kind == Join && res[1].kind == Period && res[2].kind == Comma && res[3].kind == Space
  {
    var res := GenerateCandidates(Some(("cat", "fish")));
    assert InsideWord("cat", "fish");
    assert Rank(res[1].kind) == 1;
  }

  /** Whitespace on both sides of the caret still yields period and comma; only no context gives space alone. */
  lemma BlankSurroundings()
    ensures |GenerateCandidates(Some(("", "")))| == 3
    ensures GenerateCandidates(None) == [Candidate("␣", Space)]
  {
  }

  /** `replaceAroundPending`: in one batch, delete `leftLen` before and `rightLen` after the caret, then commit. */
  method ReplaceAroundPending(ic: TextSurface, leftLen: nat, rightLen: nat, newText: string)
    modifies ic
    ensures ic.before == old(ic.before)[..|old(ic.before)| - Min(leftLen, |old(ic.before)|)] + newText
    ensures ic.after == old(ic.after)[Min(rightLen, |old(ic.after)|)..]
    ensures ic.readable == old(ic.readable) && ic.batchDepth == old(ic.batchDepth)
  {
    ic.BeginBatchEdit();
    ic.DeleteSurroundingText(leftLen, rightLen);
    ic.CommitText(newText);
    ic.EndBatchEdit();
  }

  /** Replacing L before the caret and R after it by L + R before it moves R across the caret. */
  lemma JoinSplice(b: string, a: string, l: string, r: string)
    requires |l| <= |b| && l == b[|b| - |l|..] && r <= a
    ensures b[..|b| - Min(|l|, |b|)] + (l + r) == b + r
    ensures a[Min(|r|, |a|)..] == a[|r|..]
    ensures (b + r) + a[|r|..] == b + a
  {
    assert b == b[..|b| - |l|] + l;
    assert a == r + a[|r|..];
  }

  /** `replaceAroundPending(ic, L.length, R.length, L + R)` when L ends the text before the caret and R
      starts the text after it: R moves across the caret. */
  method ReplaceWords(ic: TextSurface, l: string, r: string)
    requires |l| <= |ic.before| && l == ic.before[|ic.before| - |l|..] && r <= ic.after
    modifies ic
    ensures ic.before == old(ic.before) + r && ic.after == old(ic.after)[|r|..]
    ensures ic.Text() == old(ic.Text())
    ensures ic.readable == old(ic.readable) && ic.batchDepth == old(ic.batchDepth)
  {
    JoinSplice(ic.before, ic.after, l, r);
    ReplaceAroundPending(ic, |l|, |r|, l + r);
  }

  /** The text before the caret after an undo: the |L|+|R| characters before the caret
      (as many as there are) give way to "L R". */
  function Undone(before: string, ctx: (string, string)): string {
    var n := Min(|ctx.0| + |ctx.1|, |before|);
    before[..|before| - n] + ctx.0 + " " + ctx.1
  }

  /** Undoing right after a join restores the two words with a space between them. */
  lemma UndoneAfterJoin(b: string, l: string, r: string)
    ensures Undone(b + l + r, (l, r)) == b + l + " " + r
  {
    assert (b + l + r)[..|b|] == b;
  }

  class SuggestionEngine {
    var pendingSpace: bool
    /** (L, R) of the last join, kept so that the join can be undone. */
    var lastJoinContext: Option<(string, string)>
    /** The confirmation callback is posted and has not run. */
    var timerPending: bool
    /** The connection the posted callback captured. */
    var timerTarget: TextSurface?

    ghost predicate Valid()
      reads this
    {
      timerPending ==> timerTarget != null
    }

    constructor ()
      ensures Valid() && !pendingSpace && lastJoinContext == None && !timerPending
    {
      pendingSpace, lastJoinContext, timerPending, timerTarget := false, None, false, null;
    }

    /** `onSpacePressed`: arms the pending space and the timer; returns what the callback receives
        (None when the callback is not called). Nothing is written to the document. */
    method OnSpacePressed(ic: TextSurface?) returns (shown: Option<seq<Candidate>>)
      requires Valid()
      modifies this
      ensures Valid()
      ensures ic == null ==>
        && shown == None && pendingSpace == old(pendingSpace)
        && lastJoinContext == old(lastJoinContext) && timerPending == old(timerPending) && timerTarget == old(timerTarget)
      ensures ic != null ==>
        && pendingSpace && lastJoinContext == None && timerPending && timerTarget == ic
        && shown == Some(GenerateCandidates(ExtractAround(ic)))
    {
      if ic == null {
        return None;
      }
      pendingSpace := true;
      lastJoinContext := None;
      shown := Some(GenerateCandidates(ExtractAround(ic)));
      // removeCallbacksAndMessages(null) cancels the earlier callback; postDelayed posts a fresh one
      timerPending := true;
      timerTarget := ic;
    }

    /** The posted confirmation callback comes due: it commits one space only if the space is still pending. */
    method OnTimeout()
      requires Valid()
      modifies this, timerTarget
      ensures Valid() && !timerPending && timerTarget == old(timerTarget)
      ensures lastJoinContext == old(lastJoinContext)
      ensures pendingSpace == (old(pendingSpace) && !old(timerPending))
      ensures timerTarget != null ==>
        && timerTarget.before == old(timerTarget.before) + (if old(timerPending && pendingSpace) then " " else "")
        && timerTarget.after == old(timerTarget.after)
        && timerTarget.readable == old(timerTarget.readable) && timerTarget.batchDepth == old(timerTarget.batchDepth)
    {
      if timerPending {
        timerPending := false;
        if pendingSpace {
          timerTarget.CommitText(" ");
          pendingSpace := false;
        }
      }
    }

    /** `onCharCommitted`: the refreshed candidates while a space is pending, otherwise an empty list. */
    method OnCharCommitted(ic: TextSurface?) returns (shown: seq<Candidate>)
      ensures pendingSpace ==> shown == GenerateCandidates(ExtractAround(ic))
      ensures !pendingSpace ==> shown == []
    {
      if pendingSpace {
        shown := GenerateCandidates(ExtractAround(ic));
      } else {
        shown := [];
      }
    }

    /** `applyCandidate`. The posted timer is left in place; clearing `pendingSpace` is what silences it. */
    method ApplyCandidate(ic: TextSurface?, c: Candidate) returns (ok: bool)
      requires Valid()
      modifies this, ic
      ensures Valid() && timerPending == old(timerPending) && timerTarget == old(timerTarget)
      ensures ok <==> ic != null && (c.kind == Join ==> old(ExtractAround(ic)).Some?)
      ensures !ok ==> pendingSpace == old(pendingSpace) && lastJoinContext == old(lastJoinContext)
      ensures ic != null ==> ic.readable == old(ic.readable) && ic.batchDepth == old(ic.batchDepth)
      ensures ic != null && !ok ==> ic.before == old(ic.before) && ic.after == old(ic.after)
      ensures ok ==> !pendingSpace
      ensures ok && c.kind != Join ==>
        && lastJoinContext == old(lastJoinContext)
        && ic.before == old(ic.before) + Committed(c.kind) && ic.after == old(ic.after)
      ensures ok && c.kind == Join ==>
        var (l, r) := old(ExtractAround(ic)).value;
        && lastJoinContext == Some((l, r))
        && ic.before == old(ic.before) + r
        && ic.after == old(ic.after)[|r|..]
        && ic.Text() == old(ic.Text())
    {
      if ic == null {
        return false;
      }
      match c.kind {
        case Join =>
          ok := ApplyJoin(ic);
        case Period =>
          ic.CommitText(". ");
          pendingSpace := false;
          ok := true;
        case Comma =>
          ic.CommitText(", ");
          pendingSpace := false;
          ok := true;
        case Space =>
          ic.CommitText(" ");
          pendingSpace := false;
          ok := true;
      }
    }

    /** The JOIN branch of `applyCandidate`: re-extracts (L, R) and replaces them by L + R. */
    method ApplyJoin(ic: TextSurface) returns (ok: bool)
      requires Valid()
      modifies this, ic
      ensures Valid() && timerPending == old(timerPending) && timerTarget == old(timerTarget)
      ensures ok <==> old(ExtractAround(ic)).Some?
      ensures ic.readable == old(ic.readable) && ic.batchDepth == old(ic.batchDepth)
      ensures !ok ==> pendingSpace == old(pendingSpace) && lastJoinContext == old(lastJoinContext)
      ensures !ok ==> ic.before == old(ic.before) && ic.after == old(ic.after)
      ensures ok ==>
        var (l, r) := old(ExtractAround(ic)).value;
        && !pendingSpace
        && lastJoinContext == Some((l, r))
        && ic.before == old(ic.before) + r
        && ic.after == old(ic.after)[|r|..]
        && ic.Text() == old(ic.Text())
    {
      var ctx := ExtractAround(ic);
      if ctx.None? {
        return false;
      }
      ExtractAroundWords(ic);
      var (left, right) := ctx.value;
      ReplaceWords(ic, left, right);
      pendingSpace := false;
      lastJoinContext := Some((left, right));
      ok := true;
    }

    /** `undoJoin`: replaces the |L|+|R| characters before the caret by "L R". Single use. */
    method UndoJoin(ic: TextSurface?) returns (ok: bool)
      requires Valid()
      modifies this, ic
      ensures Valid() && timerPending == old(timerPending) && timerTarget == old(timerTarget)
      ensures pendingSpace == old(pendingSpace)
      ensures ok <==> ic != null && old(lastJoinContext).Some?
      ensures !ok ==> lastJoinContext == old(lastJoinContext)
      ensures ic != null && !ok ==> ic.before == old(ic.before) && ic.after == old(ic.after)
      ensures ic != null ==> ic.readable == old(ic.readable) && ic.batchDepth == old(ic.batchDepth)
      ensures ok ==> lastJoinContext == None && ic.after == old(ic.after)
      ensures ok ==> ic.before == Undone(old(ic.before), old(lastJoinContext).value)
    {
      if ic == null {
        return false;
      }
      if lastJoinContext.None? {
        return false;
      }
      var (left, right) := lastJoinContext.value;
      var joined := left + right;
      ic.DeleteSurroundingText(|joined|, 0);
      ic.CommitText(left + " " + right);
      lastJoinContext := None;
      return true;
    }
  }

  /** Space between "L" and "R", join, the timer comes due, undo, undo again: the join keeps the
      text and moves the caret after R, the timer adds nothing, the undo restores "L R", and
      the second undo fails. */
  method JoinUndoRoundTrip(b: string, l: string, r: string, a: string)
    returns (joined: string, joinedCaret: nat, undone: string, undoneCaret: nat, secondUndo: bool)
    requires NoWhitespace(l) && NoWhitespace(r) && |l| <= Lookaround && |r| <= Lookaround
    requires b == [] || IsWhitespace(b[|b| - 1])
    requires a == [] || IsWhitespace(a[0])
    ensures joined == b + l + r + a && joinedCaret == |b| + |l| + |r|
    ensures undone == b + l + " " + r + a && undoneCaret == |b| + |l| + 1 + |r|
    ensures !secondUndo
  {
    var doc := new TextSurface(b + l, r + a, true);
    var engine := new SuggestionEngine();
    LeftWordIs(b, l);
    RightWordIs(r, a);
    assert ExtractAround(doc) == Some((l, r));
    var shown := engine.OnSpacePressed(doc);
    assert doc.before == b + l && doc.after == r + a && doc.readable;
    var ok := engine.ApplyCandidate(doc, Candidate("", Join));
    assert ok && engine.lastJoinContext == Some((l, r)) && !engine.pendingSpace;
    assert doc.before == b + l + r && doc.after == a;
    engine.OnTimeout();
    assert doc.before == b + l + r && doc.after == a;
    joined, joinedCaret := doc.Text(), |doc.before|;
    UndoneAfterJoin(b, l, r);
    ok := engine.UndoJoin(doc);
    assert doc.before == b + l + " " + r && doc.after == a;
    undone, undoneCaret := doc.Text(), |doc.before|;
    secondUndo := engine.UndoJoin(doc);
  }

  /** The text after a join and its undo, when L ends the text before the caret and R starts the text after it. */
  lemma JoinUndoText(before: string, after: string, l: string, r: string)
    requires |l| <= |before| && l == before[|before| - |l|..] && r <= after
    ensures (before + r) + after[|r|..] == before + after
    ensures Undone(before + r, (l, r)) == before + " " + r
    ensures (before + " " + r) + after[|r|..] == before + " " + after
  {
    var b := before[..|before| - |l|];
    assert before == b + l;
    assert before + r == b + l + r;
    UndoneAfterJoin(b, l, r);
    assert after == r + after[|r|..];
  }

  /** Space, join and undo on any readable document: the join moves R before the caret without changing the text,
      and the undo leaves the text with the space finally committed at the old caret, the caret after R. */
  method JoinUndoAnyDocument(before: string, after: string) returns (joined: string, undone: string, undoneCaret: nat)
    ensures joined == before + after
    ensures undone == before + " " + after
    ensures undoneCaret == |before| + 1 + |RightWord(after)|
  {
    var doc := new TextSurface(before, after, true);
    var engine := new SuggestionEngine();
    var shown := engine.OnSpacePressed(doc);
    assert doc.before == before && doc.after == after && doc.readable;
    ExtractAroundWords(doc);
    ghost var l, r := LeftWord(before), RightWord(after);
    JoinUndoText(before, after, l, r);
    var ok := engine.ApplyJoin(doc);
    assert ok && engine.lastJoinContext == Some((l, r));
    assert doc.before == before + r && doc.after == after[|r|..];
    joined := doc.Text();
    ok := engine.UndoJoin(doc);
    assert doc.before == before + " " + r && doc.after == after[|r|..];
    undone, undoneCaret := doc.Text(), |doc.before|;
  }

  /** One armed window, closed by a chosen period, comma or space or by the timer, then the timer
      comes due again: exactly one terminal text reaches the document. */
  method OneTerminalCommit(b: string, a: string, choice: Option<CandidateType>) returns (text: string)
    requires choice != Some(Join)
    ensures text == b + (if choice.Some? then Committed(choice.value) else " ") + a
  {
    var doc := new TextSurface(b, a, true);
    var engine := new SuggestionEngine();
    var shown := engine.OnSpacePressed(doc);
    assert doc.before == b && doc.after == a && engine.pendingSpace && engine.timerPending;
    if choice.Some? {
      var ok := engine.ApplyCandidate(doc, Candidate("", choice.value));
      assert ok && !engine.pendingSpace && engine.timerPending;
      assert doc.before == b + Committed(choice.value) && doc.after == a;
    }
    ghost var closing := if choice.Some? then Committed(choice.value) else " ";
    assert engine.timerTarget == doc;
    engine.OnTimeout();
    assert !engine.pendingSpace && !engine.timerPending;
    assert doc.before == b + closing && doc.after == a;
    engine.OnTimeout();
    assert doc.before == b + closing && doc.after == a;
    text := doc.Text();
  }

  /** Two space presses before the timer comes due: the second cancels the first callback,
      so a single space is committed. */
  method SpacePressedTwice(b: string, a: string) returns (text: string)
    ensures text == b + " " + a
  {
    var doc := new TextSurface(b, a, true);
    var engine := new SuggestionEngine();
    var shown := engine.OnSpacePressed(doc);
    shown := engine.OnSpacePressed(doc);
    assert doc.before == b && doc.after == a && engine.pendingSpace && engine.timerPending;
    assert engine.timerTarget == doc;
    engine.OnTimeout();
    assert !engine.pendingSpace && !engine.timerPending;
    assert doc.before == b + " " && doc.after == a;
    engine.OnTimeout();
    assert doc.before == b + " " && doc.after == a;
    text := doc.Text();
  }

  /** The timer comes due first and commits the space; a period, comma or space chosen from the bar
      afterwards is still committed, after that space. */
  method TimerThenCandidate(b: string, a: string, choice: CandidateType) returns (text: string)
    requires choice != Join
    ensures text == b + " " + Committed(choice) + a
  {
    var doc := new TextSurface(b, a, true);
    var engine := new SuggestionEngine();
    var shown := engine.OnSpacePressed(doc);
    assert doc.before == b && doc.after == a && engine.pendingSpace && engine.timerPending;
    assert engine.timerTarget == doc;
    engine.OnTimeout();
    assert !engine.pendingSpace && !engine.timerPending;
    assert doc.before == b + " " && doc.after == a;
    var ok := engine.ApplyCandidate(doc, Candidate("", choice));
    assert ok && doc.before == b + " " + Committed(choice) && doc.after == a;
    text := doc.Text();
  }

  /** Two candidates chosen in one window: both are committed, in order. */
  method TwoCandidates(b: string, a: string, first: CandidateType, second: CandidateType) returns (text: string)
    requires first != Join && second != Join
    ensures text == b + Committed(first) + Committed(second) + a
  {
    var doc := new TextSurface(b, a, true);
    var engine := new SuggestionEngine();
    var shown := engine.OnSpacePressed(doc);
    assert doc.before == b && doc.after == a;
    var ok := engine.ApplyCandidate(doc, Candidate("", first));
    assert ok && doc.before == b + Committed(first) && doc.after == a;
    ok := engine.ApplyCandidate(doc, Candidate("", second));
    assert ok && doc.before == b + Committed(first) + Committed(second) && doc.after == a;
    text := doc.Text();
  }
}
