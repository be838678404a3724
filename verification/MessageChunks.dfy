/**
 Splitting a long message for upload and joining it again
 (`_chunk_message` and `_previous_user_message` of hermes-plugin-honcho/__init__.py).
 */
module MessageChunks {

  const PREFIX := "[continued] "

  /** What `str.strip` removes. */
  predicate IsSpace(c: char) {
    || '\t' <= c <= '\r' || '\U{1c}' <= c <= ' ' || c == '\U{85}' || c == '\U{a0}' || c == '\U{1680}'
    || '\U{2000}' <= c <= '\U{200a}' || c == '\U{2028}' || c == '\U{2029}' || c == '\U{202f}'
    || c == '\U{205f}' || c == '\U{3000}'
  }

  /** By code point: the 29 whitespace characters of Unicode as Python's `str` has them. */
  lemma SpacesAre(c: char)
    ensures IsSpace(c) <==> c as int in {
      9, 10, 11, 12, 13, 28, 29, 30, 31, 32, 133, 160, 5760,
      8192, 8193, 8194, 8195, 8196, 8197, 8198, 8199, 8200, 8201, 8202, 8232, 8233, 8239, 8287, 12288}
  {}

  predicate AllSpace(s: string) {
    forall i :: 0 <= i < |s| ==> IsSpace(s[i])
  }

  /** The number of leading whitespace characters. */
  function Leading(s: string, from: nat := 0): (n: nat)
    requires from <= |s|
    ensures from <= n <= |s| && (forall i :: from <= i < n ==> IsSpace(s[i]))
    ensures n < |s| ==> !IsSpace(s[n])
    decreases |s| - from
  {
    if from < |s| && IsSpace(s[from]) then Leading(s, from + 1) else from
  }

  function LStrip(s: string): string {
    s[Leading(s)..]
  }

  /** The length of `s` without its trailing whitespace. */
  function Trimmed(s: string, end: nat): (n: nat)
    requires end <= |s|
    ensures n <= end && (forall i :: n <= i < end ==> IsSpace(s[i]))
    ensures 0 < n ==> !IsSpace(s[n - 1])
  {
    if 0 < end && IsSpace(s[end - 1]) then Trimmed(s, end - 1) else end
  }

  function RStrip(s: string): string {
    s[..Trimmed(s, |s|)]
  }

  predicate OccursAt(s: string, sep: string, i: int) {
    0 <= i <= |s| - |sep| && s[i..i + |sep|] == sep
  }

  /** It does exactly if the string is put together with `sep` there. */
  lemma OccursIff(s: string, sep: string, i: nat)
    ensures OccursAt(s, sep, i) <==> exists before: string, after: string :: |before| == i && s == before + sep + after
  {
    if OccursAt(s, sep, i) {
      var before, after := s[..i], s[i + |sep|..];
      assert |before| == i && s == before + sep + after;
    }
  }

  /** The last occurrence of `sep` in `s` at or before `i`, or -1. */
  function RFindFrom(s: string, sep: string, i: int): (r: int)
    requires -1 <= i
    ensures -1 <= r <= i && (r == -1 || OccursAt(s, sep, r))
    ensures forall j :: r < j <= i ==> !OccursAt(s, sep, j)
    decreases i + 1
  {
    if i < 0 || OccursAt(s, sep, i) then i else RFindFrom(s, sep, i - 1)
  }

  /** `s.rfind(sep)`. */
  function RFind(s: string, sep: string): (r: int)
    ensures -1 <= r && (r == -1 || OccursAt(s, sep, r))
    ensures forall j :: r < j ==> !OccursAt(s, sep, j)
  {
    RFindFrom(s, sep, |s|)
  }

  /** The text may be cut before a blank line, after ". ", or before a space. */
  predicate Boundary(s: string, cut: int) {
    OccursAt(s, "\n\n", cut) || OccursAt(s, ". ", cut - 2) || OccursAt(s, " ", cut)
  }

  // ----- Splitting -----

  function Prefixed(chunk: string, first: bool): string {
    if first then chunk else PREFIX + chunk
  }

  function RemovePrefix(chunk: string): string {
    if PREFIX <= chunk then chunk[|PREFIX|..] else chunk
  }

  /** The chunks without their "[continued] " prefixes. */
  function Pieces(chunks: seq<string>): seq<string> {
    seq(|chunks|, i requires 0 <= i < |chunks| => if i == 0 then chunks[0] else RemovePrefix(chunks[i]))
  }

  /** Every piece followed by its gap. */
  function Weave(pieces: seq<string>, gaps: seq<string>): string
    requires |pieces| == |gaps|
  {
    if pieces == [] then ""
    else Weave(pieces[..|pieces| - 1], gaps[..|gaps| - 1]) + pieces[|pieces| - 1] + gaps[|gaps| - 1]
  }

  /** `text` is exactly the pieces, with nothing but whitespace after each of them. */
  ghost predicate Interleaved(pieces: seq<string>, text: string) {
    exists gaps: seq<string> ::
      |gaps| == |pieces| && (forall i :: 0 <= i < |gaps| ==> AllSpace(gaps[i])) && Weave(pieces, gaps) == text
  }

  /** The cut is not in the first 30 percent. */
  predicate Late(cut: int, size: nat) {
    10 * cut >= 3 * size
  }

  /** Where a segment is cut: after a paragraph, a sentence or a word, else at its end. */
  function CutOf(segment: string): int {
    var paragraph, sentence, word := RFind(segment, "\n\n"), RFind(segment, ". "), RFind(segment, " ");
    if Late(paragraph, |segment|) then paragraph
    else if Late(if sentence >= 0 then sentence + 2 else sentence, |segment|) then sentence + 2
    else if Late(word, |segment|) then word
    else |segment|
  }

  /** The search for a cut in the loop of `_chunk_message`. */
  method FindCut(segment: string) returns (cut: int)
    ensures cut == CutOf(segment)
  {
    cut := RFind(segment, "\n\n");
    if Late(cut, |segment|) { return; }
    cut := RFind(segment, ". ");
    if cut >= 0 { cut := cut + 2; }
    if Late(cut, |segment|) { return; }
    cut := RFind(segment, " ");
    if Late(cut, |segment|) { return; }
    cut := |segment|;
  }

  /** A cut makes progress, falls on a boundary when a late one exists, and prefers the last
      paragraph break, then the last sentence end. */
  lemma CutIsLate(segment: string)
    requires segment != ""
    ensures 1 <= CutOf(segment) <= |segment| && Late(CutOf(segment), |segment|)
    ensures !Boundary(segment, CutOf(segment)) ==>
      CutOf(segment) == |segment| && forall i :: Late(i, |segment|) ==> !Boundary(segment, i)
    ensures forall i :: OccursAt(segment, "\n\n", i) && Late(i, |segment|) ==>
      i <= CutOf(segment) && OccursAt(segment, "\n\n", CutOf(segment))
    ensures forall i :: OccursAt(segment, ". ", i - 2) && Late(i, |segment|) ==>
      OccursAt(segment, "\n\n", CutOf(segment)) || (i <= CutOf(segment) && OccursAt(segment, ". ", CutOf(segment) - 2))
  {
    assert forall j :: OccursAt(segment, ". ", j) ==> j <= RFind(segment, ". ");
  }

  /** The last place for `sep` in the segment, `shift` characters behind where it stands, if that is not in
      the first 30 percent. */
  ghost predicate LastLate(segment: string, sep: string, shift: nat, cut: int) {
    && OccursAt(segment, sep, cut - shift) && 10 * cut >= 3 * |segment|
    && forall i :: cut - shift < i ==> !OccursAt(segment, sep, i)
  }

  ghost predicate HasLate(segment: string, sep: string, shift: nat) {
    exists i :: OccursAt(segment, sep, i) && 10 * (i + shift) >= 3 * |segment|
  }

  /** Where a segment is to be cut: before the last blank line that is late enough; without one behind the
      last such ". "; without one before the last such space; and without any at its end. */
  ghost predicate Preferred(segment: string, cut: int) {
    if HasLate(segment, "\n\n", 0) then LastLate(segment, "\n\n", 0, cut)
    else if HasLate(segment, ". ", 2) then LastLate(segment, ". ", 2, cut)
    else if HasLate(segment, " ", 0) then LastLate(segment, " ", 0, cut)
    else cut == |segment|
  }

  lemma LateIff(segment: string, sep: string, shift: nat)
    ensures var at := RFind(segment, sep) + shift;
      && (HasLate(segment, sep, shift) <==> RFind(segment, sep) != -1 && 10 * at >= 3 * |segment|)
      && (HasLate(segment, sep, shift) ==> LastLate(segment, sep, shift, at))
  {
    var r := RFind(segment, sep);
    assert (r + shift) - shift == r;
    if r != -1 && 10 * (r + shift) >= 3 * |segment| {
      assert OccursAt(segment, sep, r);
    }
  }

  lemma LastIsUnique(segment: string, sep: string, shift: nat, cut: int)
    requires LastLate(segment, sep, shift, cut)
    ensures cut == RFind(segment, sep) + shift
  {}

  /** The search finds that cut, and there is only one. */
  lemma CutIsPreferred(segment: string, cut: int)
    requires segment != ""
    ensures Preferred(segment, cut) <==> cut == CutOf(segment)
  {
    LateIff(segment, "\n\n", 0);
    LateIff(segment, ". ", 2);
    LateIff(segment, " ", 0);
    if HasLate(segment, "\n\n", 0) {
      if LastLate(segment, "\n\n", 0, cut) { LastIsUnique(segment, "\n\n", 0, cut); }
    } else if HasLate(segment, ". ", 2) {
      if LastLate(segment, ". ", 2, cut) { LastIsUnique(segment, ". ", 2, cut); }
    } else if LastLate(segment, " ", 0, cut) {
      LastIsUnique(segment, " ", 0, cut);
    }
  }

  lemma WeaveNext(pieces: seq<string>, gaps: seq<string>, piece: string, gap: string)
    requires |pieces| == |gaps|
    ensures Weave(pieces + [piece], gaps + [gap]) == Weave(pieces, gaps) + piece + gap
  {
    assert (pieces + [piece])[..|pieces|] == pieces && (gaps + [gap])[..|gaps|] == gaps;
  }

  lemma PiecesNext(chunks: seq<string>, chunk: string, first: bool)
    requires first == (chunks == [])
    ensures Pieces(chunks + [Prefixed(chunk, first)]) == Pieces(chunks) + [chunk]
  {
    assert (PREFIX + chunk)[|PREFIX|..] == chunk;
  }

  /** The body of the loop of `_chunk_message`: the next piece and what remains of `text`. */
  method CutOff(text: string, effective: nat) returns (chunk: string, ghost gap: string, rest: string)
    requires 0 < effective < |text|
    ensures text == chunk + gap + rest && AllSpace(gap)
    ensures |chunk| <= effective && 3 * effective <= 10 * |chunk + gap|
    ensures |rest| < |text|
    ensures var cut := CutOf(text[..effective]); 0 <= cut <= |text| && chunk == RStrip(text[..cut]) && rest == LStrip(text[cut..])
  {
    CutIsLate(text[..effective]);
    var cut := FindCut(text[..effective]);
    chunk := RStrip(text[..cut]);
    rest := LStrip(text[cut..]);
    SplitAround(text, cut, chunk, rest);
    gap := text[|chunk|..|text| - |rest|];
  }

  function Room(limit: int, first: bool): int {
    if first then limit else limit - |PREFIX|
  }

  /** All the chunks of a text. */
  function Chunked(text: string, limit: int, first: bool): seq<string>
    requires |PREFIX| < limit
    decreases |text|
  {
    if text == "" then []
    else if |text| <= Room(limit, first) then [Prefixed(text, first)]
    else
      CutIsLate(text[..Room(limit, first)]);
      var cut := CutOf(text[..Room(limit, first)]);
      [Prefixed(RStrip(text[..cut]), first)] + Chunked(LStrip(text[cut..]), limit, false)
  }

  /** The piece ends at the preferred cut of as much of the text as there is room for, without the
      whitespace before it; the rest begins behind the whitespace after it. */
  ghost predicate CutsOff(text: string, room: int, piece: string, gap: string, rest: string) {
    && 0 < room < |text| && text == piece + gap + rest && AllSpace(gap)
    && (piece != "" ==> !IsSpace(piece[|piece| - 1])) && (rest != "" ==> !IsSpace(rest[0]))
    && exists cut :: |piece| <= cut <= |piece + gap| && Preferred(text[..room], cut)
  }

  /** The chunks of a text, each but the first with 12 characters of its room taken by the prefix. */
  ghost predicate CutUp(chunks: seq<string>, text: string, limit: int, first: bool)
    decreases |chunks|
  {
    var room := if first then limit else limit - 12;
    if text == "" then chunks == []
    else if |text| <= room then chunks == [if first then text else "[continued] " + text]
    else
      chunks != [] && exists rest :: CutsFirst(chunks[0], text, room, first, rest) && CutUp(chunks[1..], rest, limit, false)
  }

  ghost predicate CutsFirst(chunk: string, text: string, room: int, first: bool, rest: string) {
    exists piece, gap ::
      CutsOff(text, room, piece, gap, rest) && chunk == if first then piece else "[continued] " + piece
  }

  lemma CutsOffThere(text: string, room: int) returns (piece: string, gap: string, rest: string)
    requires 0 < room < |text|
    ensures CutsOff(text, room, piece, gap, rest)
    ensures var cut := CutOf(text[..room]); 0 <= cut <= |text| && piece == RStrip(text[..cut]) && rest == LStrip(text[cut..])
  {
    CutIsLate(text[..room]);
    var cut := CutOf(text[..room]);
    CutIsPreferred(text[..room], cut);
    piece, rest := RStrip(text[..cut]), LStrip(text[cut..]);
    SplitAround(text, cut, piece, rest);
    gap := text[|piece|..|text| - |rest|];
    assert |piece| <= cut <= |piece + gap|;
  }

  lemma CutUpNext(chunk: string, others: seq<string>, text: string, limit: int, first: bool, rest: string)
    requires Room(limit, first) < |text| && CutsFirst(chunk, text, Room(limit, first), first, rest)
    requires CutUp(others, rest, limit, false)
    ensures CutUp([chunk] + others, text, limit, first)
  {
    assert ([chunk] + others)[1..] == others;
  }

  lemma {:induction false} ChunkedIsCutUp(text: string, limit: int, first: bool)
    requires |PREFIX| < limit
    ensures CutUp(Chunked(text, limit, first), text, limit, first)
    decreases |text|
  {
    if Room(limit, first) < |text| {
      CutIsLate(text[..Room(limit, first)]);
      var piece, gap, rest := CutsOffThere(text, Room(limit, first));
      assert CutsFirst(Prefixed(piece, first), text, Room(limit, first), first, rest);
      ChunkedIsCutUp(rest, limit, false);
      ChunkedStep(text, limit, first);
      CutUpNext(Prefixed(piece, first), Chunked(rest, limit, false), text, limit, first, rest);
    }
  }

  /** `chunks` are the first chunks of the content, and those of what remains are the others. */
  predicate Remains(chunks: seq<string>, remaining: string, limit: int, first: bool, content: string)
    requires |PREFIX| < limit
  {
    chunks + Chunked(remaining, limit, first) == Chunked(content, limit, true)
  }

  lemma RemainsNext(chunks: seq<string>, remaining: string, limit: int, first: bool, content: string)
    requires |PREFIX| < limit && Room(limit, first) < |remaining| && Remains(chunks, remaining, limit, first, content)
    ensures var cut := CutOf(remaining[..Room(limit, first)]);
      && 0 <= cut <= |remaining|
      && Remains(chunks + [Prefixed(RStrip(remaining[..cut]), first)], LStrip(remaining[cut..]), limit, false, content)
  {
    CutIsLate(remaining[..Room(limit, first)]);
    ChunkedStep(remaining, limit, first);
    var cut := CutOf(remaining[..Room(limit, first)]);
    Associative(chunks, [Prefixed(RStrip(remaining[..cut]), first)], Chunked(LStrip(remaining[cut..]), limit, false));
  }

  lemma ChunkedStep(text: string, limit: int, first: bool)
    requires |PREFIX| < limit && Room(limit, first) < |text|
    ensures var cut := CutOf(text[..Room(limit, first)]);
      && 0 <= cut <= |text|
      && Chunked(text, limit, first) ==
           [Prefixed(RStrip(text[..cut]), first)] + Chunked(LStrip(text[cut..]), limit, false)
  {
    CutIsLate(text[..Room(limit, first)]);
  }

  lemma Associative<T>(a: seq<T>, b: seq<T>, c: seq<T>)
    ensures a + (b + c) == (a + b) + c
  {}

  lemma RemainsLast(chunks: seq<string>, remaining: string, limit: int, first: bool, content: string)
    requires |PREFIX| < limit && Remains(chunks, remaining, limit, first, content) && |remaining| <= Room(limit, first)
    ensures remaining == "" ==> CutUp(chunks, content, limit, true)
    ensures remaining != "" ==> CutUp(chunks + [Prefixed(remaining, first)], content, limit, true)
  {
    ChunkedIsCutUp(content, limit, true);
    if remaining == "" {
      assert chunks + [] == chunks;
    } else {
      assert Chunked(remaining, limit, first) == [Prefixed(remaining, first)];
    }
  }

  /** What is cut off so far: `chunks` and the gaps after them make up `done`. */
  ghost predicate Cut(chunks: seq<string>, gaps: seq<string>, done: string, limit: int) {
    && |gaps| == |chunks| && (forall i :: 0 <= i < |gaps| ==> AllSpace(gaps[i]))
    && Weave(Pieces(chunks), gaps) == done
    && (forall i :: 0 <= i < |chunks| ==> |chunks[i]| <= limit)
    && (forall i :: 0 < i < |chunks| ==> PREFIX <= chunks[i])
  }

  lemma CutNext(chunks: seq<string>, gaps: seq<string>, done: string, limit: int,
                piece: string, gap: string, first: bool)
    requires Cut(chunks, gaps, done, limit) && AllSpace(gap) && first == (chunks == [])
    requires |Prefixed(piece, first)| <= limit
    ensures Cut(chunks + [Prefixed(piece, first)], gaps + [gap], done + piece + gap, limit)
  {
    PiecesNext(chunks, piece, first);
    WeaveNext(Pieces(chunks), gaps, piece, gap);
  }

  /** Every cut so far removed at least 3/10 of `size` characters. */
  ghost predicate Spent(cuts: nat, size: int, used: nat) {
    cuts * size * 3 <= 10 * used
  }

  lemma SpentNext(cuts: nat, size: int, used: nat, more: nat)
    requires Spent(cuts, size, used) && 3 * size <= 10 * more
    ensures Spent(cuts + 1, size, used + more)
  {
    assert (cuts + 1) * size == cuts * size + size;
  }

  /** The chunks fit the limit, continue with the prefix, and cover `content` up to whitespace;
      all but the last took at least 3/10 of the room they had. */
  ghost predicate GoodChunks(chunks: seq<string>, content: string, limit: int) {
    && chunks != []
    && (forall i :: 0 <= i < |chunks| ==> |chunks[i]| <= limit)
    && (forall i :: 0 < i < |chunks| ==> PREFIX <= chunks[i])
    && Interleaved(Pieces(chunks), content)
    && (1 < |chunks| ==> |PREFIX| < limit && Spent(|chunks| - 1, limit - |PREFIX|, |content|))
  }

  lemma CutDone(chunks: seq<string>, gaps: seq<string>, content: string, limit: int, last: string)
    requires Cut(chunks, gaps, content, limit) && chunks != [] && |last| <= |content|
    requires 1 < |chunks| ==> |PREFIX| < limit && Spent(|chunks| - 1, limit - |PREFIX|, |content| - |last|)
    ensures GoodChunks(chunks, content, limit)
  {}

  lemma CutLast(chunks: seq<string>, gaps: seq<string>, done: string, content: string, limit: int,
                last: string, first: bool)
    requires Cut(chunks, gaps, done, limit) && |PREFIX| < limit && content == done + last && first == (chunks == [])
    requires Spent(|chunks|, limit - |PREFIX|, |done|) && |Prefixed(last, first)| <= limit
    ensures GoodChunks(chunks + [Prefixed(last, first)], content, limit)
  {
    CutNext(chunks, gaps, done, limit, last, "", first);
    assert done + last + "" == content;
    CutDone(chunks + [Prefixed(last, first)], gaps + [""], content, limit, last);
  }

  /** `_chunk_message`. */
  method ChunkMessage(content: string, limit: int) returns (chunks: seq<string>)
    requires |PREFIX| < limit || |content| <= limit
    ensures |content| <= limit ==> chunks == [content]
    ensures limit < |content| ==> CutUp(chunks, content, limit, true)
    ensures GoodChunks(chunks, content, limit)
  {
    if |content| <= limit {
      CutNext([], [], "", limit, content, "", true);
      assert [] + [content] == [content] && "" + content + "" == content;
      CutDone([content], [] + [""], content, limit, "");
      return [content];
    }
    chunks := ChunkLong(content, limit);
  }

  /** Where the loop of `_chunk_message` stands: what is cut off, and what remains to be. */
  ghost predicate Chunking(content: string, limit: int, chunks: seq<string>, remaining: string, first: bool,
                           gaps: seq<string>, done: string)
  {
    && |PREFIX| < limit < |content| && first == (chunks == []) && (first ==> remaining == content)
    && content == done + remaining
    && Cut(chunks, gaps, done, limit) && Spent(|chunks|, limit - |PREFIX|, |done|)
    && Remains(chunks, remaining, limit, first, content)
  }

  lemma ChunkingBegins(content: string, limit: int)
    requires |PREFIX| < limit < |content|
    ensures Chunking(content, limit, [], content, true, [], "")
  {}

  lemma ChunkingEnds(content: string, limit: int, chunks: seq<string>, remaining: string, first: bool,
                     gaps: seq<string>, done: string)
    requires Chunking(content, limit, chunks, remaining, first, gaps, done) && |remaining| <= Room(limit, first)
    ensures GoodChunks(if remaining == "" then chunks else chunks + [Prefixed(remaining, first)], content, limit)
  {
    if remaining == "" {
      SpentLess(|chunks|, limit - |PREFIX|, |done|);
      assert done == content;
      CutDone(chunks, gaps, content, limit, "");
    } else {
      CutLast(chunks, gaps, done, content, limit, remaining, first);
    }
  }

  /** The loop of `_chunk_message`. */
  method ChunkLong(content: string, limit: int) returns (chunks: seq<string>)
    requires |PREFIX| < limit < |content|
    ensures CutUp(chunks, content, limit, true) && GoodChunks(chunks, content, limit)
  {
    chunks := [];
    var remaining, first := content, true;
    ghost var gaps: seq<string>, done: string := [], "";
    ChunkingBegins(content, limit);
    while remaining != ""
      invariant Chunking(content, limit, chunks, remaining, first, gaps, done)
      decreases |remaining|
    {
      var effective := if first then limit else limit - |PREFIX|;
      if |remaining| <= effective {
        ChunkingEnds(content, limit, chunks, remaining, first, gaps, done);
        RemainsLast(chunks, remaining, limit, first, content);
        chunks := chunks + [Prefixed(remaining, first)];
        return;
      }
      chunks, remaining, gaps, done := Advance(content, limit, chunks, remaining, first, effective, gaps, done);
      first := false;
    }
    ChunkingEnds(content, limit, chunks, remaining, first, gaps, done);
    RemainsLast(chunks, remaining, limit, first, content);
  }

  lemma Joined(done: string, chunk: string, gap: string, rest: string)
    ensures done + chunk + gap + rest == done + (chunk + gap + rest)
  {}

  lemma AdvanceOk(chunks: seq<string>, gaps: seq<string>, done: string, limit: nat, chunk: string, gap: string, first: bool)
    requires first == (chunks == []) && Cut(chunks, gaps, done, limit) && |PREFIX| < limit
    requires Spent(|chunks|, limit - |PREFIX|, |done|) && AllSpace(gap)
    requires |Prefixed(chunk, first)| <= limit && 3 * (limit - |PREFIX|) <= 10 * |chunk + gap|
    ensures Cut(chunks + [Prefixed(chunk, first)], gaps + [gap], done + chunk + gap, limit)
    ensures Spent(|chunks| + 1, limit - |PREFIX|, |done + chunk + gap|)
  {
    CutNext(chunks, gaps, done, limit, chunk, gap, first);
    SpentNext(|chunks|, limit - |PREFIX|, |done|, |chunk + gap|);
  }

  lemma ChunkingNext(content: string, limit: int, chunks: seq<string>, remaining: string, first: bool,
                     gaps: seq<string>, done: string, chunk: string, gap: string, rest: string)
    requires Chunking(content, limit, chunks, remaining, first, gaps, done) && Room(limit, first) < |remaining|
    requires remaining == chunk + gap + rest && AllSpace(gap)
    requires |chunk| <= Room(limit, first) && 3 * Room(limit, first) <= 10 * |chunk + gap|
    requires var cut := CutOf(remaining[..Room(limit, first)]);
      0 <= cut <= |remaining| && chunk == RStrip(remaining[..cut]) && rest == LStrip(remaining[cut..])
    ensures Chunking(content, limit, chunks + [Prefixed(chunk, first)], rest, false, gaps + [gap], done + chunk + gap)
  {
    RemainsNext(chunks, remaining, limit, first, content);
    AdvanceOk(chunks, gaps, done, limit, chunk, gap, first);
    Joined(done, chunk, gap, rest);
  }

  /** One pass of the loop that cuts. */
  method Advance(ghost content: string, ghost limit: int, chunks: seq<string>, remaining: string, first: bool,
                 effective: nat, ghost gaps: seq<string>, ghost done: string)
    returns (chunks': seq<string>, remaining': string, ghost gaps': seq<string>, ghost done': string)
    requires Chunking(content, limit, chunks, remaining, first, gaps, done)
    requires effective == (if first then limit else limit - |PREFIX|) < |remaining|
    ensures Chunking(content, limit, chunks', remaining', false, gaps', done') && |remaining'| < |remaining|
  {
    var chunk;
    ghost var gap;
    chunk, gap, remaining' := CutOff(remaining, effective);
    ChunkingNext(content, limit, chunks, remaining, first, gaps, done, chunk, gap, remaining');
    chunks', gaps', done' := chunks + [Prefixed(chunk, first)], gaps + [gap], done + chunk + gap;
  }

  lemma SpentLess(cuts: nat, size: int, used: nat)
    requires 0 < cuts && 0 <= size && Spent(cuts, size, used)
    ensures Spent(cuts - 1, size, used)
  {
    assert cuts * size == (cuts - 1) * size + size;
  }

  /** One cut loses only whitespace. */
  lemma SplitAround(rest: string, cut: nat, chunk: string, remaining: string)
    requires cut <= |rest| && chunk == RStrip(rest[..cut]) && remaining == LStrip(rest[cut..])
    ensures |chunk| <= cut <= |rest| - |remaining|
    ensures AllSpace(rest[|chunk|..|rest| - |remaining|])
    ensures rest == chunk + rest[|chunk|..|rest| - |remaining|] + remaining
  {
    var a, b := rest[..cut], rest[cut..];
    var n := Leading(b);
    assert |rest| - |remaining| == cut + n;
    assert forall i :: |chunk| <= i < cut ==> a[i] == rest[i];
    assert forall i :: 0 <= i < n ==> b[i] == rest[cut + i];
    forall i | |chunk| <= i < cut + n ensures IsSpace(rest[i]) {
      if i < cut {
        assert IsSpace(a[i]);
      } else {
        assert IsSpace(b[i - cut]);
      }
    }
  }

  // ----- Joining again -----

  function JoinLines(parts: seq<string>): string {
    if parts == [] then ""
    else if |parts| == 1 then parts[0]
    else JoinLines(parts[..|parts| - 1]) + "\n" + parts[|parts| - 1]
  }

  /** The text `_previous_user_message` rebuilds from stored chunks. */
  function Rejoin(chunks: seq<string>): string {
    LStrip(RStrip(JoinLines(Pieces(chunks))))
  }

  datatype Message = Message(role: string, content: string)

  function Contents(messages: seq<Message>): seq<string> {
    seq(|messages|, i requires 0 <= i < |messages| => messages[i].content)
  }

  /** messages[start..end] is the last run of user messages. */
  ghost predicate LastUserRun(messages: seq<Message>, start: nat, end: nat) {
    && start <= end <= |messages|
    && (forall i :: end <= i < |messages| ==> messages[i].role != "user")
    && (forall i :: start <= i < end ==> messages[i].role == "user")
    && (0 < start ==> messages[start - 1].role != "user")
    && (start == end ==> end == 0)
  }

  /** What is rejoined begins and ends with no whitespace. */
  lemma RejoinIsStripped(chunks: seq<string>)
    ensures var text := Rejoin(chunks); text != "" ==> !IsSpace(text[0]) && !IsSpace(text[|text| - 1])
  {
    var r := RStrip(JoinLines(Pieces(chunks)));
    assert LStrip(r) != "" ==> LStrip(r)[|LStrip(r)| - 1] == r[|r| - 1];
  }

  /** `_previous_user_message`. */
  method PreviousUserMessage(previousTurn: string, messages: seq<Message>) returns (text: string)
    ensures previousTurn != "" ==> text == previousTurn
    ensures previousTurn == "" ==> exists start: nat, end: nat ::
      LastUserRun(messages, start, end) && text == Rejoin(Contents(messages[start..end]))
  {
    if previousTurn != "" { return previousTurn; }
    var end: nat := |messages|;
    while end != 0 && messages[end - 1].role != "user"
      invariant end <= |messages| && forall i :: end <= i < |messages| ==> messages[i].role != "user"
    {
      end := end - 1;
    }
    var start: nat := end;
    while start != 0 && messages[start - 1].role == "user"
      invariant start <= end && forall i :: start <= i < end ==> messages[i].role == "user"
    {
      start := start - 1;
    }
    text := Rejoin(Contents(messages[start..end]));
  }

  /** The characters that are not whitespace, in order. */
  function NonSpace(s: string): string {
    if s == "" then ""
    else NonSpace(s[..|s| - 1]) + if IsSpace(s[|s| - 1]) then "" else [s[|s| - 1]]
  }

  lemma {:induction false} NonSpaceOfConcat(a: string, b: string)
    ensures NonSpace(a + b) == NonSpace(a) + NonSpace(b)
    decreases |b|
  {
    if b == "" {
      assert a + b == a;
    } else {
      assert (a + b)[..|a + b| - 1] == a + b[..|b| - 1];
      NonSpaceOfConcat(a, b[..|b| - 1]);
    }
  }

  lemma {:induction false} NonSpaceOfSpace(s: string)
    requires AllSpace(s)
    ensures NonSpace(s) == ""
    decreases |s|
  {
    if s != "" {
      NonSpaceOfSpace(s[..|s| - 1]);
    }
  }

  lemma {:induction false} NonSpaceOfSolid(s: string)
    requires forall i :: 0 <= i < |s| ==> !IsSpace(s[i])
    ensures NonSpace(s) == s
    decreases |s|
  {
    if s != "" {
      NonSpaceOfSolid(s[..|s| - 1]);
    }
  }

  lemma NonSpaceOfStrip(s: string)
    ensures NonSpace(LStrip(RStrip(s))) == NonSpace(s)
  {
    var r := RStrip(s);
    assert s == r + s[|r|..];
    NonSpaceOfConcat(r, s[|r|..]);
    NonSpaceOfSpace(s[|r|..]);
    assert r == r[..Leading(r)] + LStrip(r);
    NonSpaceOfConcat(r[..Leading(r)], LStrip(r));
    NonSpaceOfSpace(r[..Leading(r)]);
  }

  /** The characters of all pieces that are not whitespace. */
  function Solid(pieces: seq<string>): string {
    if pieces == [] then "" else Solid(pieces[..|pieces| - 1]) + NonSpace(pieces[|pieces| - 1])
  }

  lemma {:induction false} SolidOfWeave(pieces: seq<string>, gaps: seq<string>)
    requires |pieces| == |gaps| && forall i :: 0 <= i < |gaps| ==> AllSpace(gaps[i])
    ensures NonSpace(Weave(pieces, gaps)) == Solid(pieces)
    decreases |pieces|
  {
    if pieces != [] {
      var n := |pieces| - 1;
      SolidOfWeave(pieces[..n], gaps[..n]);
      NonSpaceOfConcat(Weave(pieces[..n], gaps[..n]) + pieces[n], gaps[n]);
      NonSpaceOfConcat(Weave(pieces[..n], gaps[..n]), pieces[n]);
      NonSpaceOfSpace(gaps[n]);
    }
  }

  lemma {:induction false} SolidOfJoin(pieces: seq<string>)
    ensures NonSpace(JoinLines(pieces)) == Solid(pieces)
    decreases |pieces|
  {
    if |pieces| == 1 {
      assert Solid(pieces[..0]) == "";
    } else if 1 < |pieces| {
      var n := |pieces| - 1;
      SolidOfJoin(pieces[..n]);
      NonSpaceOfConcat(JoinLines(pieces[..n]) + "\n", pieces[n]);
      NonSpaceOfConcat(JoinLines(pieces[..n]), "\n");
      NonSpaceOfSpace("\n");
    }
  }

  function Lines(n: nat): seq<string> {
    seq(n, _ => "\n")
  }

  /** Joining puts one line end between every two pieces, and nothing else. */
  lemma {:induction false} JoinIsWeave(parts: seq<string>)
    requires parts != []
    ensures JoinLines(parts) + "\n" == Weave(parts, Lines(|parts|))
    decreases |parts|
  {
    var n := |parts| - 1;
    assert Lines(|parts|)[..n] == Lines(n);
    if n == 0 {
      assert Weave(parts[..0], Lines(0)) == "";
    } else {
      JoinIsWeave(parts[..n]);
    }
  }

  lemma {:induction false} TrimmedOf(s: string, gap: string)
    requires AllSpace(gap)
    ensures RStrip(s + gap) == RStrip(s)
    decreases |gap|
  {
    if gap == "" {
      assert s + gap == s;
    } else {
      var n := |gap| - 1;
      TrimmedOf(s, gap[..n]);
      assert (s + gap)[..|s| + n] == s + gap[..n];
      TrimmedOfLonger(s + gap, |s| + n);
    }
  }

  lemma {:induction false} TrimmedOfPrefix(s: string, end: nat)
    requires end <= |s|
    ensures Trimmed(s, end) == Trimmed(s[..end], end)
    decreases end
  {
    if 0 < end && IsSpace(s[end - 1]) {
      TrimmedOfPrefix(s, end - 1);
      TrimmedOfPrefix(s[..end], end - 1);
      assert s[..end][..end - 1] == s[..end - 1];
    }
  }

  lemma TrimmedOfLonger(s: string, end: nat)
    requires end + 1 == |s| && IsSpace(s[end])
    ensures RStrip(s) == RStrip(s[..end])
  {
    TrimmedOfPrefix(s, end);
    assert s[..end][..Trimmed(s, end)] == s[..Trimmed(s, end)];
  }

  /** A text cut at line ends only is rejoined to itself, stripped at its ends. */
  lemma RejoinIsExactOnLines(chunks: seq<string>, content: string, last: string)
    requires chunks != [] && AllSpace(last)
    requires content == Weave(Pieces(chunks), Lines(|chunks| - 1) + [last])
    ensures Rejoin(chunks) == LStrip(RStrip(content))
  {
    var parts, n := Pieces(chunks), |chunks| - 1;
    JoinIsWeave(parts);
    assert Lines(|parts|)[..n] == Lines(n) == (Lines(n) + [last])[..n];
    var body := Weave(parts[..n], Lines(n)) + parts[n];
    assert JoinLines(parts) + "\n" == body + "\n";
    assert JoinLines(parts) == (JoinLines(parts) + "\n")[..|body|] == body;
    assert content == body + last;
    TrimmedOf(body, last);
  }

  /** Splitting and joining again loses and adds nothing but whitespace. */
  lemma RejoinRestores(chunks: seq<string>, content: string, limit: int)
    requires GoodChunks(chunks, content, limit)
    ensures NonSpace(Rejoin(chunks)) == NonSpace(content)
  {
    var gaps :| |gaps| == |Pieces(chunks)| && (forall i :: 0 <= i < |gaps| ==> AllSpace(gaps[i]))
                && Weave(Pieces(chunks), gaps) == content;
    NonSpaceOfStrip(JoinLines(Pieces(chunks)));
    SolidOfJoin(Pieces(chunks));
    SolidOfWeave(Pieces(chunks), gaps);
  }

  /** A turn stored as the chunks of its user text, and then replies, is recalled up to whitespace. */
  lemma RecallRestores(earlier: seq<Message>, turn: seq<Message>, replies: seq<Message>, content: string, limit: int,
                       start: nat, end: nat)
    requires GoodChunks(Contents(turn), content, limit)
    requires forall m :: m in turn ==> m.role == "user"
    requires forall m :: m in replies ==> m.role != "user"
    requires earlier != [] ==> earlier[|earlier| - 1].role != "user"
    requires LastUserRun(earlier + turn + replies, start, end)
    ensures NonSpace(Rejoin(Contents((earlier + turn + replies)[start..end]))) == NonSpace(content)
  {
    assert turn != [] by { assert |Contents(turn)| == |turn|; }
    RunIsTurn(earlier, turn, replies, start, end);
    assert (earlier + turn + replies)[start..end] == turn;
    RejoinRestores(Contents(turn), content, limit);
  }

  lemma RunIsTurn(earlier: seq<Message>, turn: seq<Message>, replies: seq<Message>, start: nat, end: nat)
    requires turn != []
    requires forall m :: m in turn ==> m.role == "user"
    requires forall m :: m in replies ==> m.role != "user"
    requires earlier != [] ==> earlier[|earlier| - 1].role != "user"
    requires LastUserRun(earlier + turn + replies, start, end)
    ensures start == |earlier| && end == |earlier| + |turn|
  {
    var all, n, k := earlier + turn + replies, |earlier|, |turn|;
    RolesOf(earlier, turn, replies);
    assert all[n + k - 1].role == "user";
    assert n + k <= end;
    assert all[end - 1].role == "user";
    assert end <= n + k;
    assert 0 < start ==> all[start - 1].role != "user";
    assert start <= n;
    assert 0 < n ==> all[n - 1].role != "user";
  }

  lemma RolesOf(earlier: seq<Message>, turn: seq<Message>, replies: seq<Message>)
    requires forall m :: m in turn ==> m.role == "user"
    requires forall m :: m in replies ==> m.role != "user"
    requires earlier != [] ==> earlier[|earlier| - 1].role != "user"
    ensures var all, n, k := earlier + turn + replies, |earlier|, |turn|;
      && (forall i :: n <= i < n + k ==> all[i].role == "user")
      && (forall i :: n + k <= i < |all| ==> all[i].role != "user")
      && (0 < n ==> all[n - 1].role != "user")
  {
    var all, n, k := earlier + turn + replies, |earlier|, |turn|;
    forall i | n <= i < n + k ensures all[i].role == "user" { assert all[i] == turn[i - n]; }
    forall i | n + k <= i < |all| ensures all[i].role != "user" { assert all[i] == replies[i - n - k]; }
    if 0 < n { assert all[n - 1] == earlier[n - 1]; }
  }
}
