/** A message as the messages it is sent in. */
module Template {

  const PART: nat := 3500

  /** What `str.strip` takes for white space. */
  predicate IsSpace(c: char) {
    || '\U{9}' <= c <= '\U{d}' || '\U{1c}' <= c <= '\U{20}' || c == '\U{85}' || c == '\U{a0}' || c == '\U{1680}'
    || '\U{2000}' <= c <= '\U{200a}' || c == '\U{2028}' || c == '\U{2029}' || c == '\U{202f}' || c == '\U{205f}'
    || c == '\U{3000}'
  }

  predicate AllSpace(s: string) { forall i :: 0 <= i < |s| ==> IsSpace(s[i]) }

  /** The first place from `i` on that is not white space, or the end. */
  function PastSpace(s: string, i: nat): (at: nat)
    requires i <= |s|
    ensures i <= at <= |s| && (at < |s| ==> !IsSpace(s[at]))
    ensures forall k :: i <= k < at ==> IsSpace(s[k])
    decreases |s| - i
  {
    if i < |s| && IsSpace(s[i]) then PastSpace(s, i + 1) else i
  }

  /** The place after the last before `i` that is not white space, or the start. */
  function BeforeSpace(s: string, i: nat): (at: nat)
    requires i <= |s|
    ensures at <= i && (at > 0 ==> !IsSpace(s[at - 1]))
    ensures forall k :: at <= k < i ==> IsSpace(s[k])
  {
    if i > 0 && IsSpace(s[i - 1]) then BeforeSpace(s, i - 1) else i
  }

  function LeftStrip(s: string): (r: string)
    ensures |r| <= |s| && s[|s| - |r|..] == r && AllSpace(s[..|s| - |r|])
    ensures r != [] ==> !IsSpace(r[0])
  {
    hide IsSpace;
    s[PastSpace(s, 0)..]
  }

  function RightStrip(s: string): (r: string)
    ensures |r| <= |s| && s[..|r|] == r && AllSpace(s[|r|..])
    ensures r != [] ==> !IsSpace(r[|r| - 1])
  {
    hide IsSpace;
    s[..BeforeSpace(s, |s|)]
  }

  function Strip(s: string): string { RightStrip(LeftStrip(s)) }

  predicate Stripped(s: string) { s != [] && !IsSpace(s[0]) && !IsSpace(s[|s| - 1]) }

  const BREAKS: seq<string> := ["\n\n", "\n", " "]

  /** `mark` stands in `s` at `i`. */
  predicate StandsAt(s: string, mark: string, i: int) {
    0 <= i && i + |mark| <= |s| && s[i..i + |mark|] == mark
  }

  /** The last place `mark` stands in `s`, or -1. */
  function RightFind(s: string, mark: string): (at: int)
    ensures at == -1 || StandsAt(s, mark, at)
    ensures forall i :: StandsAt(s, mark, i) ==> i <= at
  {
    RightFindFrom(s, mark, |s|)
  }

  function RightFindFrom(s: string, mark: string, from: nat): (at: int)
    requires from <= |s|
    ensures at == -1 || (StandsAt(s, mark, at) && at <= from)
    ensures forall i :: StandsAt(s, mark, i) && i <= from ==> i <= at
  {
    if StandsAt(s, mark, from) then from
    else if from == 0 then -1
    else RightFindFrom(s, mark, from - 1)
  }

  /** Where the next message ends: at the last paragraph that fits, else the last line, else the last word; else cut. */
  function CutAt(rest: string, limit: nat): (at: int)
    requires |rest| > limit >= 1
    ensures 0 < at <= limit
  {
    var window := rest[..limit + 1];
    if RightFind(window, BREAKS[0]) > 0 then RightFind(window, BREAKS[0])
    else if RightFind(window, BREAKS[1]) > 0 then RightFind(window, BREAKS[1])
    else if RightFind(window, BREAKS[2]) > 0 then RightFind(window, BREAKS[2])
    else limit
  }

  function PartsOf(rest: string, limit: nat): seq<string>
    requires limit >= 1
    decreases |rest|
  {
    if |rest| > limit then
      var at := CutAt(rest, limit);
      [RightStrip(rest[..at])] + PartsOf(LeftStrip(rest[at..]), limit)
    else if rest != [] then [rest]
    else []
  }

  function Parts(text: string, limit: nat): seq<string>
    requires limit >= 1
  {
    PartsOf(Strip(text), limit)
  }

  method SplitParts(text: string, limit: nat) returns (found: seq<string>)
    requires limit >= 1
    ensures found == Parts(text, limit)
  {
    hide CutAt, RightStrip, LeftStrip, Strip;
    found := [];
    var rest := Strip(text);
    while |rest| > limit
      invariant found + PartsOf(rest, limit) == Parts(text, limit)
      decreases |rest|
    {
      var at := CutAt(rest, limit);
      found := found + [RightStrip(rest[..at])];
      rest := LeftStrip(rest[at..]);
    }
    if rest != [] {
      found := found + [rest];
    }
  }

  // ---- what the parts are of the message -------------------------------------------------------------------------

  /** `text` is the pieces in order, with nothing but white space between one and the next. */
  ghost predicate JoinTo(pieces: seq<string>, text: string) {
    if |pieces| == 0 then text == []
    else if |pieces| == 1 then text == pieces[0]
    else
      && pieces[0] <= text
      && exists k :: |pieces[0]| <= k <= |text| && AllSpace(text[|pieces[0]|..k]) && JoinTo(pieces[1..], text[k..])
  }

  lemma CutKeepsEnds(rest: string, limit: nat)
    requires limit >= 1 && |rest| > limit && Stripped(rest)
    ensures
      var at := CutAt(rest, limit);
      && Stripped(RightStrip(rest[..at])) && |RightStrip(rest[..at])| <= limit
      && LeftStrip(rest[at..]) != [] && Stripped(LeftStrip(rest[at..]))
  {
  }

  lemma CutPieces(rest: string, at: nat)
    requires at <= |rest|
    ensures
      var piece, next := RightStrip(rest[..at]), LeftStrip(rest[at..]);
      && |piece| <= at <= |rest| - |next| && piece <= rest && next == rest[|rest| - |next|..]
      && AllSpace(rest[|piece|..|rest| - |next|])
  {
    hide IsSpace, RightStrip, LeftStrip;
    var piece, next := RightStrip(rest[..at]), LeftStrip(rest[at..]);
    var k := |rest| - |next|;
    assert rest[at..][|rest[at..]| - |next|..] == rest[k..];
    forall i | |piece| <= i < k ensures IsSpace(rest[i]) {
      if i < at {
        assert rest[i] == rest[..at][|piece|..][i - |piece|];
      } else {
        assert rest[i] == rest[at..][..k - at][i - at];
      }
    }
  }

  /** Messages of their own within the limit that together are `text`. */
  ghost predicate GoodParts(pieces: seq<string>, text: string, limit: nat) {
    && (forall i :: 0 <= i < |pieces| ==> Stripped(pieces[i]) && |pieces[i]| <= limit)
    && JoinTo(pieces, text) && (pieces == [] <==> text == [])
  }

  lemma OneMore(piece: string, later: seq<string>, text: string, k: nat, limit: nat)
    requires Stripped(piece) && |piece| <= limit && later != [] && piece <= text && |piece| <= k <= |text|
    requires AllSpace(text[|piece|..k]) && GoodParts(later, text[k..], limit)
    ensures GoodParts([piece] + later, text, limit)
  {
  }

  /** Every part is a message of its own within the limit, and together they are the message: no other character is lost,
      repeated or moved. */
  lemma {:induction false} PartsOfJoin(rest: string, limit: nat)
    requires limit >= 1 && (rest == [] || Stripped(rest))
    ensures GoodParts(PartsOf(rest, limit), rest, limit)
    decreases |rest|
  {
    hide CutAt, RightStrip, LeftStrip, IsSpace, AllSpace;
    if |rest| > limit {
      CutKeepsEnds(rest, limit);
      var at := CutAt(rest, limit);
      var piece, next := RightStrip(rest[..at]), LeftStrip(rest[at..]);
      PartsOfJoin(next, limit);
      CutPieces(rest, at);
      hide JoinTo;
      assert PartsOf(next, limit) != [];
      hide GoodParts, Stripped;
      OneMore(piece, PartsOf(next, limit), rest, |rest| - |next|, limit);
    }
  }

  lemma StripIsStripped(text: string)
    ensures Strip(text) == [] || Stripped(Strip(text))
  {
  }

  lemma PartsJoin(text: string, limit: nat)
    requires limit >= 1
    ensures GoodParts(Parts(text, limit), Strip(text), limit)
    ensures Parts(text, limit) == [] <==> AllSpace(text)
  {
    StripIsStripped(text);
    PartsOfJoin(Strip(text), limit);
    NothingToStrip(text);
  }

  lemma NothingToStrip(text: string)
    ensures Strip(text) == [] <==> AllSpace(text)
  {
  }

  lemma MarksAreSpace(window: string, at: nat)
    requires at < |window|
    ensures forall i :: 0 <= i < |BREAKS| && StandsAt(window, BREAKS[i], at) ==> IsSpace(window[at])
  {
  }

  /** A word is cut in two only when no space or line end stands anywhere it could have been cut. */
  lemma WordCutOnlyWhenTooLong(rest: string, limit: nat)
    requires limit >= 1 && |rest| > limit && !IsSpace(rest[CutAt(rest, limit)])
    ensures CutAt(rest, limit) == limit
    ensures forall i :: 0 < i <= limit ==> rest[i] != ' ' && rest[i] != '\n'
  {
    var window := rest[..limit + 1];
    var at := CutAt(rest, limit);
    hide IsSpace;
    MarksAreSpace(window, at);
    assert window[at] == rest[at];
    forall i | 0 < i <= limit ensures rest[i] != ' ' && rest[i] != '\n' {
      assert rest[i] == ' ' ==> StandsAt(window, " ", i);
      assert rest[i] == '\n' ==> StandsAt(window, "\n", i);
    }
  }

  /** A message may end at `i` because `mark` stands there, whole within the limit and one character. */
  ghost predicate MayEndAt(rest: string, limit: nat, mark: string, i: int) {
    0 < i && i + |mark| <= limit + 1 && StandsAt(rest, mark, i)
  }

  /** The last of such places. */
  ghost predicate LastSuch(rest: string, limit: nat, mark: string, at: int) {
    MayEndAt(rest, limit, mark, at) && forall i :: MayEndAt(rest, limit, mark, i) ==> i <= at
  }

  lemma FindsTheLast(rest: string, limit: nat, mark: string)
    requires |rest| > limit
    ensures var at := RightFind(rest[..limit + 1], mark);
      if at > 0 then LastSuch(rest, limit, mark, at) else forall i :: !MayEndAt(rest, limit, mark, i)
  {
    var window := rest[..limit + 1];
    forall i ensures MayEndAt(rest, limit, mark, i) <==> i > 0 && StandsAt(window, mark, i) {
      if 0 < i && i + |mark| <= limit + 1 {
        assert window[i..i + |mark|] == rest[i..i + |mark|];
      }
    }
    hide MayEndAt;
  }

  /** A text too long for one message is cut at the last paragraph that fits; where none does, at the last line; where none
      does, at the last word; and only then in the middle of one. The rest is cut the same way. */
  lemma CutAtTheBest(rest: string, limit: nat) returns (at: nat)
    requires limit >= 1 && |rest| > limit
    ensures 0 < at <= limit
    ensures PartsOf(rest, limit) == [RightStrip(rest[..at])] + PartsOf(LeftStrip(rest[at..]), limit)
    ensures
      if exists i :: MayEndAt(rest, limit, "\n\n", i) then LastSuch(rest, limit, "\n\n", at)
      else if exists i :: MayEndAt(rest, limit, "\n", i) then LastSuch(rest, limit, "\n", at)
      else if exists i :: MayEndAt(rest, limit, " ", i) then LastSuch(rest, limit, " ", at)
      else at == limit
  {
    at := CutAt(rest, limit);
    FindsTheLast(rest, limit, "\n\n");
    FindsTheLast(rest, limit, "\n");
    FindsTheLast(rest, limit, " ");
    hide MayEndAt, RightStrip, LeftStrip;
  }
}
