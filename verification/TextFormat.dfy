// Wrapping text to a width.
module TextFormat {
  import opened Sequences

  // The values of a size_t.
  const SIZE_MODULUS := 0x1_0000_0000_0000_0000
  type Size = n: nat | n < SIZE_MODULUS

  // Without an initial indentation the first line is indented like the others.
  datatype Attributes = Attributes(initialIndent: Option<Size>, indent: Size, width: Size)

  const BEFORE: set<char> := {'[', '(', '{', '<', '\t'}
  const AFTER: set<char> := {']', ')', '}', '>', '-', ',', '.', '/', '|', '\\'}
  const INSTEAD: set<char> := {' ', '\n', '\r'}

  const MAX_LINES := 1000
  const NOTICE := "... message truncated due to excessive size"

  function IndentOf(a: Attributes, k: nat): Size {
    if k == 0 && a.initialIndent.Some? then a.initialIndent.value else a.indent
  }

  // The columns that are left beside an indentation; the subtraction wraps around below zero.
  function Room(a: Attributes, indent: Size): Size {
    if indent <= a.width then a.width - indent else a.width + SIZE_MODULUS - indent
  }

  // Room and indentation make up the width, as sizes do.
  lemma RoomFits(a: Attributes, indent: Size)
    ensures (Room(a, indent) + indent) % SIZE_MODULUS == a.width
  {}

  function Spaces(n: nat): (s: string)
    ensures |s| == n
  {
    seq(n, i => ' ')
  }

  // A part of the text: where it starts, what goes on a line, what is left out behind it, and whether
  // it is hyphenated.
  datatype Piece = Piece(start: nat, body: string, gap: string, hyphen: bool)

  // Where the next piece starts.
  function NextStart(p: Piece): nat { p.start + |p.body| + |p.gap| }

  // Pieces that make up the text, in order.
  function Covered(pieces: seq<Piece>): string {
    Concat(seq(|pieces|, i requires 0 <= i < |pieces| => pieces[i].body + pieces[i].gap))
  }

  function Line(a: Attributes, k: nat, p: Piece): string {
    Spaces(IndentOf(a, k)) + p.body + if p.hyphen then "-" else ""
  }

  // Only spaces and line ends are left out, and nothing where a word is broken; no line end is kept;
  // a piece fits the room and, where that is at least 2, is some of the text.
  predicate Proper(p: Piece, room: nat) {
    && (forall i | 0 <= i < |p.gap| :: p.gap[i] in INSTEAD)
    && (forall i | 0 <= i < |p.body| :: p.body[i] != '\n')
    && (p.hyphen ==> p.gap == "")
    && |p.body| + (if p.hyphen then 1 else 0) <= room
    && (room >= 2 ==> p.body + p.gap != "")
  }

  // The search for the place to break a line that could reach from `it` to `limit`.
  datatype Break = Break(itEnd: nat, itNext: nat, hyphen: bool)

  // Whether the line can be broken at this place.
  predicate CanBreak(s: string, it: nat, limit: nat, k: nat)
    requires it <= k <= limit < |s|
  {
    (s[k] in AFTER && k != limit) || (k > it && s[k] in BEFORE) || s[k] in INSTEAD
  }

  // The break is at the last place where the line can be broken, and spaces before it are left out;
  // only a line that cannot be broken is hyphenated.
  predicate Breaks(s: string, it: nat, limit: nat, b: Break)
    requires it <= limit < |s|
  {
    && it <= b.itEnd <= b.itNext <= limit + 1
    && (forall i | b.itEnd <= i < b.itNext :: s[i] in INSTEAD)
    && (b.hyphen <==> forall k | it <= k <= limit :: !CanBreak(s, it, limit, k))
    && (b.hyphen ==> b.itNext == b.itEnd == limit - 1)
    && (!b.hyphen ==>
          && it < b.itNext && b.itEnd <= limit && (b.itEnd == it || s[b.itEnd - 1] !in INSTEAD)
          && exists k :: it <= k <= limit && CanBreak(s, it, limit, k)
                         && b.itNext == (if s[k] in BEFORE then k else k + 1)
                         && forall j | k < j <= limit :: !CanBreak(s, it, limit, j))
  }

  method FindBreak(s: string, it: nat, limit: nat) returns (b: Break)
    requires it <= limit < |s| && (limit == it ==> s[it] in INSTEAD)
    ensures Breaks(s, it, limit, b)
  {
    var itEnd, itNext, found := limit, |s|, false;
    var findIt := limit;
    ghost var at := limit;
    while true
      invariant it <= findIt <= limit && !found && itEnd == limit
      invariant forall j | findIt < j <= limit :: !CanBreak(s, it, limit, j)
      decreases findIt
    {
      at := findIt;
      if s[findIt] in AFTER && findIt != itEnd {
        itEnd, itNext, found := findIt + 1, findIt + 1, true;
      } else if findIt > it && s[findIt] in BEFORE {
        itEnd, itNext, found := findIt, findIt, true;
      } else if s[findIt] in INSTEAD {
        itEnd, itNext, found := findIt, findIt + 1, true;
      }
      assert found <==> CanBreak(s, it, limit, findIt);
      if findIt == it || found { break; }
      findIt := findIt - 1;
    }
    if !found {
      return Break(itEnd - 1, itEnd - 1, true);
    }
    while itEnd > it && s[itEnd - 1] in INSTEAD
      invariant it <= itEnd <= itNext && itEnd <= limit
      invariant forall i | itEnd <= i < itNext :: s[i] in INSTEAD
      decreases itEnd
    {
      itEnd := itEnd - 1;
    }
    b := Break(itEnd, itNext, false);
    assert CanBreak(s, it, limit, at) && itNext == if s[at] in BEFORE then at else at + 1;
  }

  // The first newline in a stretch, or its end.
  function Newline(s: string, it: nat, itEnd: nat): (k: nat)
    requires it <= itEnd <= |s|
    ensures it <= k <= itEnd && (k < itEnd ==> s[k] == '\n') && forall i | it <= i < k :: s[i] != '\n'
    decreases itEnd - it
  {
    if it == itEnd || s[it] == '\n' then it else Newline(s, it + 1, itEnd)
  }

  method FindNewline(s: string, it: nat, itEnd: nat) returns (k: nat)
    requires it <= itEnd <= |s|
    ensures k == Newline(s, it, itEnd)
  {
    k := it;
    while k < itEnd && s[k] != '\n'
      invariant it <= k <= itEnd && Newline(s, it, itEnd) == Newline(s, k, itEnd)
    {
      k := k + 1;
    }
  }

  // How far a line could reach.
  function Limit(s: string, it: nat, room: nat): (k: nat)
    requires it < |s|
    ensures it <= k <= |s|
  {
    Newline(s, it, if |s| - it < room then |s| else it + room)
  }

  // Where a line from `it` on ends that could reach to `limit`.
  predicate Ends(s: string, it: nat, limit: nat, b: Break)
    requires it <= limit <= |s|
  {
    if limit == |s| then b == Break(|s|, |s|, false) else Breaks(s, it, limit, b)
  }

  function BreakOf(p: Piece): Break {
    Break(p.start + |p.body|, p.start + |p.body| + |p.gap|, p.hyphen)
  }

  // The piece is the one that the search for a break comes to.
  predicate Chosen(s: string, room: nat, p: Piece) {
    && p.start < |s| && p.start + |p.body| + |p.gap| <= |s|
    && s[p.start..p.start + |p.body| + |p.gap|] == p.body + p.gap
    && Ends(s, p.start, Limit(s, p.start, room), BreakOf(p))
  }

  // The next piece of the text, from `it` on, for a line with this room. A line with room for one
  // character does not get on in the middle of a word.
  method NextPiece(s: string, it: nat, room: nat) returns (p: Piece, itNext: nat)
    requires it < |s| && room >= 1
    ensures p.start == it && itNext == it + |p.body| + |p.gap| && Chosen(s, room, p) && Proper(p, room)
    ensures itNext == it <==> room == 1 && p.hyphen
  {
    var width := if |s| - it < room then |s| - it else room;
    var itEnd := FindNewline(s, it, it + width);
    if itEnd == |s| {
      RestIsChosen(s, it, room);
      return Piece(it, s[it..], "", false), |s|;
    }
    var b := FindBreak(s, it, itEnd);
    p, itNext := Cut(s, it, itEnd, b), b.itNext;
    CutIsChosen(s, it, room, b);
    CutIsProper(s, it, room, b);
  }

  lemma RestIsChosen(s: string, it: nat, room: nat)
    requires it < |s| && room >= 1 && Limit(s, it, room) == |s|
    ensures var p := Piece(it, s[it..], "", false); Chosen(s, room, p) && Proper(p, room)
  {
    var p := Piece(it, s[it..], "", false);
    assert s[it..|s|] == p.body + p.gap;
  }

  lemma CutIsChosen(s: string, it: nat, room: nat, b: Break)
    requires it < |s| && room >= 1 && Limit(s, it, room) < |s| && Breaks(s, it, Limit(s, it, room), b)
    ensures Chosen(s, room, Cut(s, it, Limit(s, it, room), b))
  {
    var p := Cut(s, it, Limit(s, it, room), b);
    assert b == BreakOf(p);
  }

  // A word is broken only at the end of the room.
  lemma CutIsProper(s: string, it: nat, room: nat, b: Break)
    requires it < |s| && room >= 1 && Limit(s, it, room) < |s| && Breaks(s, it, Limit(s, it, room), b)
    ensures Proper(Cut(s, it, Limit(s, it, room), b), room)
    ensures b.itNext == it <==> room == 1 && b.hyphen
  {
    var limit := Limit(s, it, room);
    assert s[limit] == '\n' ==> CanBreak(s, it, limit, limit);
    var p := Cut(s, it, limit, b);
    assert |p.body + p.gap| == b.itNext - it;
  }

  // The piece that a break makes.
  function Cut(s: string, it: nat, limit: nat, b: Break): (p: Piece)
    requires it <= b.itEnd <= b.itNext <= limit + 1 <= |s| && b.itEnd <= limit
    requires forall i | b.itEnd <= i < b.itNext :: s[i] in INSTEAD
    requires forall i | it <= i < limit :: s[i] != '\n'
    ensures p.start == it && s[it..b.itNext] == p.body + p.gap
    ensures |p.body| == b.itEnd - it && |p.gap| == b.itNext - b.itEnd && p.hyphen == b.hyphen
    ensures forall i | 0 <= i < |p.gap| :: p.gap[i] in INSTEAD
    ensures forall i | 0 <= i < |p.body| :: p.body[i] != '\n'
  {
    Piece(it, s[it..b.itEnd], s[b.itEnd..b.itNext], b.hyphen)
  }

  lemma CoveredNext(pieces: seq<Piece>, p: Piece)
    ensures Covered(pieces + [p]) == Covered(pieces) + (p.body + p.gap)
  {
    var f := (ps: seq<Piece>) => seq(|ps|, i requires 0 <= i < |ps| => ps[i].body + ps[i].gap);
    assert f(pieces + [p]) == f(pieces) + [p.body + p.gap];
    assert Concat([p.body + p.gap]) == p.body + p.gap;
    ConcatAppend(f(pieces), [p.body + p.gap]);
  }

  // A line is at most as long as the width.
  lemma LineWithin(a: Attributes, k: nat, p: Piece)
    requires Proper(p, Room(a, IndentOf(a, k))) && IndentOf(a, k) < a.width
    ensures |Line(a, k, p)| <= a.width
  {}

  // Pieces that all are some of the text are at most as many as its characters.
  lemma {:induction false} PiecesBounded(pieces: seq<Piece>)
    requires forall k | 0 <= k < |pieces| :: pieces[k].body + pieces[k].gap != ""
    ensures |pieces| <= |Covered(pieces)|
  {
    if pieces != [] {
      var n := |pieces| - 1;
      PiecesBounded(pieces[..n]);
      CoveredNext(pieces[..n], pieces[n]);
      assert pieces == pieces[..n] + [pieces[n]];
    }
  }

  // Every line but the notice.
  predicate Rendered(s: string, a: Attributes, lines: seq<string>, pieces: seq<Piece>) {
    |lines| == |pieces| && forall k | 0 <= k < |pieces| ::
      var p, room := pieces[k], Room(a, IndentOf(a, k));
      lines[k] == Line(a, k, p) && p.start == |Covered(pieces[..k])| && Chosen(s, room, p) && Proper(p, room)
  }

  // The lines so far show the text up to `it`.
  predicate Shown(s: string, a: Attributes, lines: seq<string>, pieces: seq<Piece>, it: nat) {
    it <= |s| && Covered(pieces) == s[..it] && Rendered(s, a, lines, pieces)
  }

  lemma ShownNext(s: string, a: Attributes, lines: seq<string>, pieces: seq<Piece>, it: nat, p: Piece, itNext: nat)
    requires Shown(s, a, lines, pieces, it) && p.start == it && itNext == it + |p.body| + |p.gap|
    requires var room := Room(a, IndentOf(a, |pieces|)); Chosen(s, room, p) && Proper(p, room)
    ensures Shown(s, a, lines + [Line(a, |pieces|, p)], pieces + [p], itNext)
  {
    ChosenPart(s, Room(a, IndentOf(a, |pieces|)), p);
    CoveredFurther(s, pieces, it, p, itNext);
    RenderedNext(s, a, lines, pieces, p);
  }

  lemma CoveredFurther(s: string, pieces: seq<Piece>, it: nat, p: Piece, itNext: nat)
    requires it <= itNext <= |s| && Covered(pieces) == s[..it] && s[it..itNext] == p.body + p.gap
    ensures Covered(pieces + [p]) == s[..itNext]
  {
    CoveredNext(pieces, p);
    assert s[..itNext] == s[..it] + s[it..itNext];
  }

  lemma RenderedNext(s: string, a: Attributes, lines: seq<string>, pieces: seq<Piece>, p: Piece)
    requires Rendered(s, a, lines, pieces) && p.start == |Covered(pieces)|
    requires var room := Room(a, IndentOf(a, |pieces|)); Chosen(s, room, p) && Proper(p, room)
    ensures Rendered(s, a, lines + [Line(a, |pieces|, p)], pieces + [p])
  {
    var all := pieces + [p];
    assert forall k | 0 <= k < |pieces| :: all[..k] == pieces[..k];
    assert all[..|pieces|] == pieces;
  }

  // The lines are those of these pieces, which make up the text, or its start if there are no more
  // lines; then a notice follows.
  predicate Wrapping(s: string, a: Attributes, lines: seq<string>, pieces: seq<Piece>) {
    && |pieces| <= |lines| && Rendered(s, a, lines[..|pieces|], pieces)
    && Covered(pieces) <= s
    && if Covered(pieces) == s then |lines| == |pieces| <= MAX_LINES
       else |pieces| == MAX_LINES && lines[MAX_LINES..] == [NOTICE]
  }

  method Wrap(s: string, a: Attributes) returns (lines: seq<string>)
    requires Room(a, IndentOf(a, 0)) >= 1 && Room(a, a.indent) >= 1
    ensures exists pieces :: Wrapping(s, a, lines, pieces)
  {
    ghost var pieces: seq<Piece> := [];
    lines := [];
    var indent := IndentOf(a, 0);
    var it := 0;
    while it < |s|
      invariant 0 <= it <= |s| && Shown(s, a, lines, pieces, it)
      invariant |lines| <= MAX_LINES && indent == IndentOf(a, |pieces|)
      decreases MAX_LINES - |lines|
    {
      if |lines| >= MAX_LINES {
        assert (lines + [NOTICE])[..|pieces|] == lines;
        lines := lines + [NOTICE];
        assert Wrapping(s, a, lines, pieces);
        return;
      }
      var p, itNext := NextPiece(s, it, Room(a, indent));
      ShownNext(s, a, lines, pieces, it, p, itNext);
      lines := lines + [Spaces(indent) + p.body + if p.hyphen then "-" else ""];
      pieces := pieces + [p];
      if indent != a.indent {
        indent := a.indent;
      }
      it := itNext;
    }
    assert lines[..|pieces|] == lines && s[..it] == s;
    assert Wrapping(s, a, lines, pieces);
  }

  // What wrapping promises when the width is at least two more than both indentations: no line but
  // the notice is longer than the width, and up to a thousand characters never need the notice.
  lemma WrapPromise(s: string, a: Attributes, lines: seq<string>, pieces: seq<Piece>)
    requires IndentOf(a, 0) + 2 <= a.width && a.indent + 2 <= a.width
    requires Wrapping(s, a, lines, pieces)
    ensures forall k | 0 <= k < |pieces| :: |lines[k]| <= a.width
    ensures Covered(pieces) != s ==> |s| > MAX_LINES
  {
    forall k | 0 <= k < |pieces|
      ensures |lines[k]| <= a.width && pieces[k].body + pieces[k].gap != ""
    {
      assert lines[..|pieces|][k] == lines[k];
      LineWithin(a, k, pieces[k]);
    }
    PiecesBounded(pieces);
  }

  // A line that shows a piece is as many spaces as its indentation has, the piece, and a hyphen if a
  // word goes on.
  predicate Shows(line: string, n: nat, p: Piece) {
    && |line| == n + |p.body| + (if p.hyphen then 1 else 0)
    && (forall j | 0 <= j < n :: line[j] == ' ')
    && line[n..n + |p.body|] == p.body
    && (p.hyphen ==> line[|line| - 1] == '-')
  }

  // What ends a line: a hyphenated one has the full width, and no other line but that at the end of the
  // text ends in a space or a line end.
  predicate NeatEnd(s: string, width: nat, line: string, n: nat, p: Piece) {
    && (p.hyphen && n < width ==> |line| == width)
    && (!p.hyphen && p.body != "" && NextStart(p) < |s| ==>
          var c := p.body[|p.body| - 1]; c != ' ' && c != '\n' && c != '\r')
  }

  lemma LinesShowPieces(s: string, a: Attributes, lines: seq<string>, pieces: seq<Piece>, k: nat)
    requires Wrapping(s, a, lines, pieces) && k < |pieces|
    ensures var n := if k == 0 && a.initialIndent.Some? then a.initialIndent.value else a.indent;
            Shows(lines[k], n, pieces[k]) && NeatEnd(s, a.width, lines[k], n, pieces[k])
  {
    WrappingAt(s, a, lines, pieces, k);
    LineParts(a, k, pieces[k]);
    LineEndIsNeat(s, a, k, pieces[k]);
  }

  lemma LineEndIsNeat(s: string, a: Attributes, k: nat, p: Piece)
    requires Chosen(s, Room(a, IndentOf(a, k)), p) && Proper(p, Room(a, IndentOf(a, k)))
    ensures NeatEnd(s, a.width, Line(a, k, p), IndentOf(a, k), p)
  {
    PieceEnds(s, Room(a, IndentOf(a, k)), p);
  }

  lemma WrappingAt(s: string, a: Attributes, lines: seq<string>, pieces: seq<Piece>, k: nat)
    requires Wrapping(s, a, lines, pieces) && k < |pieces|
    ensures var p, room := pieces[k], Room(a, IndentOf(a, k));
            lines[k] == Line(a, k, p) && Chosen(s, room, p) && Proper(p, room)
  {
    assert lines[..|pieces|][k] == lines[k];
  }

  lemma LineParts(a: Attributes, k: nat, p: Piece)
    ensures Shows(Line(a, k, p), IndentOf(a, k), p)
  {}

  lemma PieceEnds(s: string, room: nat, p: Piece)
    requires Chosen(s, room, p) && Proper(p, room)
    ensures p.hyphen ==> |p.body| + 1 == room
    ensures !p.hyphen && p.body != "" && p.start + |p.body| + |p.gap| < |s| ==> p.body[|p.body| - 1] !in INSTEAD
  {
    var limit, whole := Limit(s, p.start, room), s[p.start..p.start + |p.body| + |p.gap|];
    if limit < |s| {
      assert s[limit] == '\n' ==> CanBreak(s, p.start, limit, limit);
      if p.body != "" {
        assert p.body[|p.body| - 1] == whole[|p.body| - 1] == s[p.start + |p.body| - 1];
      }
    }
  }

  // What a line may end after, and what the next one may start with.
  predicate EndsLine(c: char) {
    c in {']', ')', '}', '>', '-', ',', '.', '/', '|', '\\', ' ', '\n', '\r'}
  }

  predicate StartsLine(c: char) { c in {'[', '(', '{', '<', '\t'} }

  // The reach of a line: up to a newline, or as far as there is room.
  predicate InReach(s: string, start: nat, room: nat, k: nat) {
    start <= k < |s| && k < start + room && forall i | start <= i < k :: s[i] != '\n'
  }

  // The rest of a text goes on one line if it fits. Otherwise a line ends where one may, if no word is
  // broken and the text goes on, and in its reach there is no such place behind that one; a word is
  // broken only where there is no such place at all.
  lemma LineEnds(s: string, room: nat, p: Piece)
    requires Chosen(s, room, p) && Proper(p, room)
    ensures |s| <= p.start + room && (forall i | p.start <= i < |s| :: s[i] != '\n') ==>
              p.body == s[p.start..] && !p.hyphen
    ensures !p.hyphen && NextStart(p) < |s| ==>
              NextStart(p) > p.start && (EndsLine(s[NextStart(p) - 1]) || StartsLine(s[NextStart(p)]))
    ensures !p.hyphen ==>
              forall k | NextStart(p) < k && InReach(s, p.start, room, k) :: !EndsLine(s[k]) && !StartsLine(s[k])
    ensures p.hyphen ==>
              forall k | p.start < k && InReach(s, p.start, room, k) :: !EndsLine(s[k]) && !StartsLine(s[k])
    ensures p.hyphen && room >= 2 ==> !EndsLine(s[p.start])
  {
    var limit := Limit(s, p.start, room);
    if |s| <= p.start + room && forall i | p.start <= i < |s| :: s[i] != '\n' {
      RestOnOneLine(s, room, p);
    }
    if limit < |s| {
      if !p.hyphen {
        LastBreak(s, p, limit);
      }
      NoBreak(s, p.start, limit, p.start);
      var next := if p.hyphen then p.start else NextStart(p);
      forall k | next < k && InReach(s, p.start, room, k)
        ensures !EndsLine(s[k]) && !StartsLine(s[k])
      {
        ReachesLimit(s, p.start, room, k);
        NoBreak(s, p.start, limit, k);
        NoBreak(s, p.start, limit, limit);
      }
    }
  }

  lemma RestOnOneLine(s: string, room: nat, p: Piece)
    requires Chosen(s, room, p) && |s| <= p.start + room && forall i | p.start <= i < |s| :: s[i] != '\n'
    ensures p.body == s[p.start..] && !p.hyphen
  {
    var limit := Limit(s, p.start, room);
    assert limit == |s|;
    assert |p.body| == |s| - p.start && p.gap == "";
    assert s[p.start..] == s[p.start..p.start + |p.body| + |p.gap|] == p.body + p.gap;
  }

  // Where a line cannot be broken.
  lemma NoBreak(s: string, it: nat, limit: nat, k: nat)
    requires it <= k <= limit < |s|
    ensures !CanBreak(s, it, limit, k) && k < limit ==> !EndsLine(s[k]) && (it < k ==> !StartsLine(s[k]))
    ensures s[limit] == '\n' ==> CanBreak(s, it, limit, limit)
  {}

  lemma ReachesLimit(s: string, start: nat, room: nat, k: nat)
    requires InReach(s, start, room, k)
    ensures var limit := Limit(s, start, room); k <= limit && (k == limit < |s| ==> s[limit] == '\n')
  {}

  lemma LastBreak(s: string, p: Piece, limit: nat)
    requires p.start <= limit < |s| && !p.hyphen && Breaks(s, p.start, limit, BreakOf(p))
    ensures NextStart(p) > p.start
    ensures NextStart(p) < |s| ==> EndsLine(s[NextStart(p) - 1]) || StartsLine(s[NextStart(p)])
    ensures forall k | NextStart(p) < k <= limit :: !CanBreak(s, p.start, limit, k)
  {
    var at :| p.start <= at <= limit && CanBreak(s, p.start, limit, at)
              && NextStart(p) == (if s[at] in BEFORE then at else at + 1)
              && forall j | at < j <= limit :: !CanBreak(s, p.start, limit, j);
    BreakPlace(s, p.start, limit, at);
  }

  lemma BreakPlace(s: string, it: nat, limit: nat, at: nat)
    requires it <= at <= limit < |s| && CanBreak(s, it, limit, at)
    ensures s[at] in BEFORE ==> StartsLine(s[at])
    ensures s[at] !in BEFORE ==> EndsLine(s[at])
  {}

  // ----- the lines are the only ones that wrap the text

  lemma StripUnique(s: string, it: nat, end: nat, other: nat, next: nat)
    requires it <= end && it <= other <= next <= |s| && forall i | end <= i < next :: s[i] in INSTEAD
    requires other == it || s[other - 1] !in INSTEAD
    ensures other <= end
  {}

  lemma BreakUnique(s: string, it: nat, limit: nat, b: Break, c: Break)
    requires it <= limit < |s| && Breaks(s, it, limit, b) && Breaks(s, it, limit, c)
    ensures b == c
  {
    if !b.hyphen {
      var k :| it <= k <= limit && CanBreak(s, it, limit, k) && b.itNext == (if s[k] in BEFORE then k else k + 1)
               && forall j | k < j <= limit :: !CanBreak(s, it, limit, j);
      var l :| it <= l <= limit && CanBreak(s, it, limit, l) && c.itNext == (if s[l] in BEFORE then l else l + 1)
               && forall j | l < j <= limit :: !CanBreak(s, it, limit, j);
      assert k == l;
      StripUnique(s, it, b.itEnd, c.itEnd, b.itNext);
      StripUnique(s, it, c.itEnd, b.itEnd, b.itNext);
    }
  }

  lemma EndsUnique(s: string, it: nat, limit: nat, b: Break, c: Break)
    requires it <= limit <= |s| && Ends(s, it, limit, b) && Ends(s, it, limit, c)
    ensures b == c
  {
    if limit < |s| {
      BreakUnique(s, it, limit, b, c);
    }
  }

  lemma ChosenPart(s: string, room: nat, p: Piece)
    requires Chosen(s, room, p)
    ensures p.start + |p.body| + |p.gap| <= |s| && s[p.start..p.start + |p.body| + |p.gap|] == p.body + p.gap
  {}

  lemma ChosenUnique(s: string, room: nat, p: Piece, q: Piece)
    requires p.start == q.start && Chosen(s, room, p) && Chosen(s, room, q)
    ensures p == q
  {
    EndsUnique(s, p.start, Limit(s, p.start, room), BreakOf(p), BreakOf(q));
    ChosenPart(s, room, p);
    ChosenPart(s, room, q);
    SamePart(s[p.start..p.start + |p.body| + |p.gap|], p.body, p.gap, q.body, q.gap);
  }

  lemma SamePart(whole: string, a: string, b: string, c: string, d: string)
    requires |a| == |c| && whole == a + b == c + d
    ensures a == c && b == d
  {
    assert whole[..|a|] == a && whole[|a|..] == b;
    assert whole[..|c|] == c && whole[|c|..] == d;
  }

  lemma PieceUnique(s: string, a: Attributes, l: seq<string>, ps: seq<Piece>, m: seq<string>, qs: seq<Piece>, k: nat)
    requires Rendered(s, a, l, ps) && Rendered(s, a, m, qs) && k < |ps| && k < |qs| && ps[..k] == qs[..k]
    ensures ps[k] == qs[k]
  {
    assert l[k] == Line(a, k, ps[k]) && m[k] == Line(a, k, qs[k]);
    ChosenUnique(s, Room(a, IndentOf(a, k)), ps[k], qs[k]);
  }

  lemma {:induction false} PrefixSame<T>(ps: seq<T>, qs: seq<T>, n: nat)
    requires n <= |ps| && n <= |qs| && forall k | 0 <= k < n :: ps[..k] == qs[..k] ==> ps[k] == qs[k]
    ensures ps[..n] == qs[..n]
  {
    if n > 0 {
      PrefixSame(ps, qs, n - 1);
      assert ps[..n] == ps[..n - 1] + [ps[n - 1]] && qs[..n] == qs[..n - 1] + [qs[n - 1]];
    }
  }

  lemma PiecesUnique(s: string, a: Attributes, l: seq<string>, ps: seq<Piece>, m: seq<string>, qs: seq<Piece>, n: nat)
    requires Rendered(s, a, l, ps) && Rendered(s, a, m, qs) && n <= |ps| && n <= |qs|
    ensures ps[..n] == qs[..n]
  {
    forall k | 0 <= k < n && ps[..k] == qs[..k]
      ensures ps[k] == qs[k]
    {
      PieceUnique(s, a, l, ps, m, qs, k);
    }
    PrefixSame(ps, qs, n);
  }

  // While pieces are left, the text is not used up.
  lemma NotWhole(s: string, a: Attributes, lines: seq<string>, pieces: seq<Piece>, k: nat)
    requires Rendered(s, a, lines, pieces) && k <= |pieces|
    ensures k < |pieces| ==> Covered(pieces[..k]) != s
  {
    if k < |pieces| {
      assert lines[k] == Line(a, k, pieces[k]);
    }
  }

  // There is only one wrapping of a text.
  lemma WrappingUnique(s: string, a: Attributes, l: seq<string>, ps: seq<Piece>, m: seq<string>, qs: seq<Piece>)
    requires Wrapping(s, a, l, ps) && Wrapping(s, a, m, qs)
    ensures l == m && ps == qs
  {
    var n := if |ps| < |qs| then |ps| else |qs|;
    PiecesUnique(s, a, l[..|ps|], ps, m[..|qs|], qs, n);
    assert ps[..|ps|] == ps && qs[..|qs|] == qs;
    NotWhole(s, a, m[..|qs|], qs, n);
    NotWhole(s, a, l[..|ps|], ps, n);
    assert ps == qs;
    SameLines(s, a, l[..|ps|], m[..|ps|], ps);
    assert l == l[..|ps|] + l[|ps|..] && m == m[..|ps|] + m[|ps|..];
  }

  lemma SameLines(s: string, a: Attributes, l: seq<string>, m: seq<string>, ps: seq<Piece>)
    requires Rendered(s, a, l, ps) && Rendered(s, a, m, ps)
    ensures l == m
  {}
}
