/**
 When the loop of `_chunk_message` ends (hermes-plugin-honcho/__init__.py), for every limit: the limit is
 parsed as any integer, and at 12 or less a later pass has no room left beside its prefix, so that its
 slices count from the end of the text.
 */
module MessageLimits {
  import opened Wrappers
  import opened MessageChunks

  /** `s[:i]`, where a negative `i` counts from the end. */
  function UpTo(s: string, i: int): string {
    if 0 <= i then s[..if i < |s| then i else |s|] else s[..if |s| + i < 0 then 0 else |s| + i]
  }

  /** `s[i:]`. */
  function From(s: string, i: int): string {
    if 0 <= i then s[if i < |s| then i else |s|..] else s[if |s| + i < 0 then 0 else |s| + i..]
  }

  /** The two slices make up the text, and each is as long as the index asks for. */
  lemma SlicesMakeText(s: string, i: int)
    ensures UpTo(s, i) + From(s, i) == s
    ensures 0 <= i <= |s| ==> |UpTo(s, i)| == i
    ensures -|s| <= i < 0 ==> |From(s, i)| == -i
    ensures i < -|s| ==> UpTo(s, i) == ""
    ensures |s| < i ==> From(s, i) == ""
  {}

  /** `cut >= effective * 0.3`. */
  predicate Accepted(cut: int, effective: int) {
    10 * cut >= 3 * effective
  }

  /** The cut of one pass. */
  function CutFor(segment: string, effective: int): int {
    var paragraph, sentence, word := RFind(segment, "\n\n"), RFind(segment, ". "), RFind(segment, " ");
    var afterSentence := if sentence >= 0 then sentence + 2 else sentence;
    if Accepted(paragraph, effective) then paragraph
    else if Accepted(afterSentence, effective) then afterSentence
    else if Accepted(word, effective) then word
    else effective
  }

  /** What remains of the text after one pass. */
  function OnePass(text: string, effective: int): string {
    LStrip(From(text, CutFor(UpTo(text, effective), effective)))
  }

  /** With room in the pass this is the cut of `MessageChunks`. */
  lemma RoomyCut(text: string, effective: nat)
    requires 0 < effective < |text|
    ensures CutFor(UpTo(text, effective), effective) == CutOf(text[..effective])
    ensures |OnePass(text, effective)| < |text|
  {
    CutIsLate(text[..effective]);
  }

  /** One pass of the loop: text and room to what remains. */
  type Pass = (string, int) -> string

  /** What remains at the start of pass `n`, or nothing once the loop has ended. */
  function Remaining(pass: Pass, text: string, limit: int, n: nat): Option<string> {
    if n == 0 then if text == "" then None else Some(text)
    else match Remaining(pass, text, limit, n - 1)
      case None => None
      case Some(r) =>
        var effective := if n == 1 then limit else limit - |PREFIX|;
        if |r| <= effective || pass(r, effective) == "" then None else Some(pass(r, effective))
  }

  ghost predicate Ends(text: string, limit: int) {
    exists n: nat :: Remaining(OnePass, text, limit, n).None?
  }

  /** There is nothing to do for an empty text. */
  lemma EmptyEnds(limit: int)
    ensures Ends("", limit)
  {
    assert Remaining(OnePass, "", limit, 0).None?;
  }

  // ----- Limits above 12 -----

  ghost predicate Shrinking(pass: Pass) {
    forall r, e :: 0 < e < |r| ==> |pass(r, e)| < |r|
  }

  lemma {:induction false} ShrinksTo(pass: Pass, text: string, limit: int, n: nat)
    requires Shrinking(pass) && |PREFIX| < limit
    ensures Remaining(pass, text, limit, n).Some? ==> |Remaining(pass, text, limit, n).value| + n <= |text|
  {
    if 0 < n {
      ShrinksTo(pass, text, limit, n - 1);
    }
  }

  /** Above 12 the loop ends on every text. */
  lemma EndsWithRoom(text: string, limit: int)
    requires |PREFIX| < limit
    ensures Ends(text, limit)
  {
    forall r: string, e: int | 0 < e < |r| ensures |OnePass(r, e)| < |r| {
      RoomyCut(r, e);
    }
    ShrinksTo(OnePass, text, limit, |text| + 1);
    assert Remaining(OnePass, text, limit, |text| + 1).None?;
  }

  // ----- Limits up to 12 -----

  /** The last `w` characters, or all. */
  function Tail(s: string, w: nat): string {
    s[if |s| < w then 0 else |s| - w..]
  }

  /** `to` is a suffix of `text` that begins with no whitespace, if it is not empty. */
  predicate StrippedFrom(text: string, to: string) {
    && |to| <= |text| && to == text[|text| - |to|..]
    && (to != "" ==> !IsSpace(to[0]))
  }

  /** A suffix and what stripping its left end leaves. */
  lemma StrippedSuffix(text: string, from: nat)
    requires from <= |text|
    ensures var to := LStrip(text[from..]);
      StrippedFrom(text, to) && |to| <= |text| - from
      && (forall i :: from <= i < |text| - |to| ==> IsSpace(text[i]))
  {
    var rest := text[from..];
    assert forall i :: 0 <= i < |rest| ==> rest[i] == text[from + i];
    assert LStrip(rest) == text[from + Leading(rest)..];
  }

  /** Where a pass without room cuts: before the last characters, or nowhere. */
  lemma CutBounds(text: string, effective: int)
    requires text != "" && effective < |text|
    ensures var cut := CutFor(UpTo(text, effective), effective);
      cut < |text| && (cut == effective || cut == -1 || 0 <= cut <= |UpTo(text, effective)|)
    ensures |UpTo(text, effective)| < |text|
  {}

  /** No pass can strip a text away that does not end in whitespace. */
  lemma PassKeepsEnd(text: string, effective: int)
    requires text != "" && effective < |text| && !IsSpace(text[|text| - 1])
    ensures var to := OnePass(text, effective); to != "" && to[|to| - 1] == text[|text| - 1]
  {
    CutBounds(text, effective);
    var cut := CutFor(UpTo(text, effective), effective);
    var from := if 0 <= cut then cut else if |text| + cut < 0 then 0 else |text| + cut;
    assert From(text, cut) == text[from..];
    StrippedSuffix(text, from);
  }

  ghost predicate KeepsEnd(pass: Pass) {
    forall r, e :: r != "" && e < |r| && !IsSpace(r[|r| - 1]) ==> pass(r, e) != "" && pass(r, e)[|pass(r, e)| - 1] == r[|r| - 1]
  }

  lemma {:induction false} EndStays(pass: Pass, text: string, limit: int, n: nat)
    requires KeepsEnd(pass) && limit <= |PREFIX| && limit < |text| && text != "" && !IsSpace(text[|text| - 1])
    ensures var r := Remaining(pass, text, limit, n); r.Some? && r.value != "" && r.value[|r.value| - 1] == text[|text| - 1]
  {
    if 0 < n {
      EndStays(pass, text, limit, n - 1);
    }
  }

  /** Up to 12 it never ends on a longer text that does not end in whitespace. */
  lemma NeverEnds(text: string, limit: int)
    requires limit <= |PREFIX| && limit < |text| && text != "" && !IsSpace(text[|text| - 1])
    ensures !Ends(text, limit)
  {
    forall r: string, e: int | r != "" && e < |r| && !IsSpace(r[|r| - 1])
      ensures OnePass(r, e) != "" && OnePass(r, e)[|OnePass(r, e)| - 1] == r[|r| - 1]
    {
      PassKeepsEnd(r, e);
    }
    forall n: nat ensures Remaining(OnePass, text, limit, n).Some? {
      EndStays(OnePass, text, limit, n);
    }
  }

  // ----- Exactly when it ends up to 12 -----

  predicate Stripped(r: string) {
    r != "" && !IsSpace(r[0])
  }

  /** Where a pass over a stripped text cuts when its slices count from the end. */
  lemma NarrowCut(r: string, e: int)
    requires Stripped(r) && e <= 0
    ensures var cut := CutFor(UpTo(r, e), e);
      && (e <= -4 ==> cut == -1 || 0 < cut <= |r| + e)
      && (-4 < e < 0 ==> cut == e || 0 < cut <= |r| + e)
      && (e == 0 ==> cut == 0)
  {
    var segment := UpTo(r, e);
    assert segment != "" ==> segment[0] == r[0];
    NotAtStart(segment, "\n\n");
    NotAtStart(segment, " ");
  }

  lemma NotAtStart(segment: string, sep: string)
    requires segment != "" ==> !IsSpace(segment[0])
    requires sep != "" && IsSpace(sep[0])
    ensures !OccursAt(segment, sep, 0)
  {
    if |sep| <= |segment| {
      assert segment[0..|sep|][0] == segment[0];
    }
  }

  /** What a pass leaves is the stripped end of the text behind its cut. */
  lemma PassLeaves(r: string, e: int) returns (from: nat)
    requires Stripped(r) && e <= 0
    ensures var cut := CutFor(UpTo(r, e), e);
      from <= |r| && from == (if 0 <= cut then cut else if |r| + cut < 0 then 0 else |r| + cut)
    ensures var to := OnePass(r, e);
      && StrippedFrom(r, to) && |to| <= |r| - from
      && (forall i :: from <= i < |r| - |to| ==> IsSpace(r[i]))
  {
    NarrowCut(r, e);
    var cut := CutFor(UpTo(r, e), e);
    from := if 0 <= cut then cut else if |r| + cut < 0 then 0 else |r| + cut;
    assert From(r, cut) == r[from..];
    StrippedSuffix(r, from);
  }

  /** Whether the loop can still strip away what remains, `e` being the room of its passes. */
  predicate Fading(r: string, e: int) {
    if e <= -4 then Stripped(r) && IsSpace(r[|r| - 1])
    else e < 0 && Stripped(r) && AllSpace(Tail(r, -e))
  }

  lemma SameEnd(r: string, to: string, w: nat)
    requires StrippedFrom(r, to) && to != ""
    ensures AllSpace(Tail(r, w)) ==> AllSpace(Tail(to, w))
    ensures to[|to| - 1] == r[|r| - 1]
  {
    var k := |r| - |to|;
    assert forall i :: 0 <= i < |to| ==> to[i] == r[k + i];
    if AllSpace(Tail(r, w)) {
      forall i | 0 <= i < |Tail(to, w)| ensures IsSpace(Tail(to, w)[i]) {
        var at := if |to| < w then i else |to| - w + i;
        var low := if |r| < w then 0 else |r| - w;
        assert Tail(to, w)[i] == r[k + at] == Tail(r, w)[k + at - low];
      }
    }
  }

  /** A fading text shrinks with every pass and goes on fading. */
  lemma FadingShrinks(r: string, e: int)
    requires Fading(r, e)
    ensures OnePass(r, e) == "" || (Fading(OnePass(r, e), e) && |OnePass(r, e)| < |r|)
  {
    NarrowCut(r, e);
    var from := PassLeaves(r, e);
    var to := OnePass(r, e);
    if to != "" {
      SameEnd(r, to, if e < 0 then -e else 0);
      TailBegins(r, e, |r| - |to|);
    }
  }

  /** A fading text has no character but whitespace among its last `-e`. */
  lemma TailBegins(r: string, e: int, at: nat)
    requires Fading(r, e) && at < |r| && !IsSpace(r[at])
    ensures -4 < e ==> at < |r| + e
    ensures e <= -4 ==> at < |r| - 1
  {
    var low := if |r| + e < 0 then 0 else |r| + e;
    assert e < 0 ==> forall i :: low <= i < |r| ==> r[i] == Tail(r, -e)[i - low];
  }

  /** A text that neither fades nor is gone stays so. */
  lemma LastingStays(r: string, e: int)
    requires Stripped(r) && !Fading(r, e) && e <= 0
    ensures Stripped(OnePass(r, e)) && !Fading(OnePass(r, e), e)
  {
    NarrowCut(r, e);
    var from := PassLeaves(r, e);
    var to := OnePass(r, e);
    if e <= -4 {
      PassKeepsEnd(r, e);
    } else if e == 0 {
      assert from == 0;
    } else {
      LastingInTail(r, e, from, to);
    }
  }

  lemma LastingInTail(r: string, e: int, from: nat, to: string)
    requires -4 < e < 0 && Stripped(r) && !AllSpace(Tail(r, -e)) && StrippedFrom(r, to)
    requires from <= (if |r| + e < 0 then 0 else |r| + e) && forall i :: from <= i < |r| - |to| ==> IsSpace(r[i])
    ensures to != "" && !AllSpace(Tail(to, -e))
  {
    var low := if |r| < -e then 0 else |r| + e;
    var i :| 0 <= i < |Tail(r, -e)| && !IsSpace(Tail(r, -e)[i]);
    assert Tail(r, -e)[i] == r[low + i];
    var k := |r| - |to|;
    assert k <= low + i;
    assert to[low + i - k] == r[low + i];
    var at := low + i - k;
    var start := if |to| < -e then 0 else |to| + e;
    assert Tail(to, -e)[at - start] == to[at];
  }

  /** Passes shorten such texts to texts of the same kind, or to nothing. */
  ghost predicate Fades(pass: Pass, e: int, kind: string -> bool) {
    forall r :: kind(r) ==> pass(r, e) == "" || (kind(pass(r, e)) && |pass(r, e)| < |r|)
  }

  lemma {:induction false} FadesAway(pass: Pass, kind: string -> bool, text: string, limit: int, n: nat)
    requires Fades(pass, limit - |PREFIX|, kind) && limit <= |PREFIX| && limit < |text| && text != ""
    requires pass(text, limit) == "" || kind(pass(text, limit))
    ensures var r := Remaining(pass, text, limit, n + 1);
      r.Some? ==> kind(r.value) && |r.value| + n <= |pass(text, limit)|
  {
    if 0 < n {
      FadesAway(pass, kind, text, limit, n - 1);
    } else {
      assert Remaining(pass, text, limit, 0) == Some(text);
    }
  }

  /** Passes leave texts of this kind, none of them empty, of this kind. */
  ghost predicate Lasts(pass: Pass, e: int, kind: string -> bool) {
    forall r :: kind(r) ==> r != "" && kind(pass(r, e)) && pass(r, e) != ""
  }

  lemma {:induction false} LastsForever(pass: Pass, kind: string -> bool, text: string, limit: int, n: nat)
    requires Lasts(pass, limit - |PREFIX|, kind) && limit <= |PREFIX| && limit < |text| && text != ""
    requires kind(pass(text, limit))
    ensures Remaining(pass, text, limit, n + 1).Some? && kind(Remaining(pass, text, limit, n + 1).value)
  {
    if 0 < n {
      LastsForever(pass, kind, text, limit, n - 1);
    } else {
      assert Remaining(pass, text, limit, 0) == Some(text);
    }
  }

  lemma PassIsStripped(text: string, e: int)
    ensures OnePass(text, e) == "" || Stripped(OnePass(text, e))
  {}

  lemma EndsIfFading(pass: Pass, kind: string -> bool, text: string, limit: int)
    requires limit <= |PREFIX| && limit < |text| && text != "" && Fades(pass, limit - |PREFIX|, kind)
    requires pass(text, limit) == "" || kind(pass(text, limit))
    ensures exists n: nat :: Remaining(pass, text, limit, n).None?
  {
    FadesAway(pass, kind, text, limit, |pass(text, limit)| + 1);
    assert Remaining(pass, text, limit, |pass(text, limit)| + 2).None?;
  }

  lemma NeverIfLasting(pass: Pass, kind: string -> bool, text: string, limit: int)
    requires limit <= |PREFIX| && limit < |text| && text != "" && Lasts(pass, limit - |PREFIX|, kind)
    requires kind(pass(text, limit))
    ensures forall n: nat :: Remaining(pass, text, limit, n).Some?
  {
    forall n: nat ensures Remaining(pass, text, limit, n).Some? {
      if 0 < n {
        LastsForever(pass, kind, text, limit, n - 1);
      }
    }
  }

  lemma PassFades(e: int)
    ensures Fades(OnePass, e, r => Fading(r, e))
  {
    forall r: string | Fading(r, e) ensures OnePass(r, e) == "" || (Fading(OnePass(r, e), e) && |OnePass(r, e)| < |r|) {
      FadingShrinks(r, e);
    }
  }

  predicate Lasting(r: string, e: int) {
    Stripped(r) && !Fading(r, e)
  }

  lemma PassLasts(e: int)
    requires e <= 0
    ensures Lasts(OnePass, e, r => Lasting(r, e))
  {
    forall r: string | Lasting(r, e) ensures r != "" && Lasting(OnePass(r, e), e) && OnePass(r, e) != "" {
      LastingStays(r, e);
    }
  }

  /** With a limit of 12 or less, the loop ends on a longer text exactly when the first pass leaves
      nothing, or something whose end later passes can strip away: ending in whitespace up to a limit
      of 8, in as many whitespace characters as the limit lacks to 12 above that. */
  lemma EndsIff(text: string, limit: int)
    requires limit <= |PREFIX| && limit < |text| && text != ""
    ensures Ends(text, limit) <==>
      OnePass(text, limit) == "" || Fading(OnePass(text, limit), limit - |PREFIX|)
  {
    var e := limit - |PREFIX|;
    var first := OnePass(text, limit);
    PassIsStripped(text, limit);
    if first == "" || Fading(first, e) {
      PassFades(e);
      EndsIfFading(OnePass, r => Fading(r, e), text, limit);
    } else {
      PassLasts(e);
      assert Lasting(first, e);
      NeverIfLasting(OnePass, r => Lasting(r, e), text, limit);
    }
  }

  /** Up to a limit of 8 that is: exactly when the text ends in whitespace. */
  lemma EndsIffLow(text: string, limit: int)
    requires limit <= 8 && limit < |text| && text != ""
    ensures Ends(text, limit) <==> IsSpace(text[|text| - 1])
  {
    if IsSpace(text[|text| - 1]) {
      EndsIff(text, limit);
      PassIsStripped(text, limit);
      if OnePass(text, limit) != "" {
        LowEnd(text, limit);
      }
    } else {
      NeverEnds(text, limit);
    }
  }

  lemma LowEnd(text: string, limit: int)
    requires limit <= 8 && limit < |text| && text != "" && OnePass(text, limit) != ""
    ensures OnePass(text, limit)[|OnePass(text, limit)| - 1] == text[|text| - 1]
  {
    CutBounds(text, limit);
    var cut := CutFor(UpTo(text, limit), limit);
    var from := if 0 <= cut then cut else if |text| + cut < 0 then 0 else |text| + cut;
    assert From(text, cut) == text[from..];
    StrippedSuffix(text, from);
  }

  /** Stripping the left end of a text does not change whether its last characters are whitespace, as
      long as something is left. */
  lemma StripKeepsTail(rest: string, w: nat)
    requires 0 < w
    ensures var to := LStrip(rest);
      AllSpace(Tail(rest, w)) <==> to == "" || (Stripped(to) && AllSpace(Tail(to, w)))
  {
    var to := LStrip(rest);
    StrippedSuffix(rest, 0);
    assert rest[0..] == rest;
    if to == "" {
      assert forall i :: 0 <= i < |Tail(rest, w)| ==> Tail(rest, w)[i] == rest[|rest| - |Tail(rest, w)| + i];
    } else {
      SameEnd(rest, to, w);
      if AllSpace(Tail(to, w)) {
        SameTail(rest, to, w);
      }
    }
  }

  /** A text that begins with no whitespace is longer than its whitespace end. */
  lemma SameTail(rest: string, to: string, w: nat)
    requires 0 < w && StrippedFrom(rest, to) && to != "" && AllSpace(Tail(to, w))
    ensures Tail(rest, w) == Tail(to, w)
  {
    assert Tail(to, w)[0] == to[|to| - |Tail(to, w)|];
    assert w < |to|;
    assert to[|to| - w..] == rest[|rest| - w..];
  }

  /** From 9 to 11: exactly when the last characters behind the first cut, as many as the limit lacks
      to 12, are whitespace. */
  lemma EndsIffMiddle(text: string, limit: int)
    requires 9 <= limit < 12 && limit < |text|
    ensures Ends(text, limit) <==> AllSpace(Tail(text[CutOf(text[..limit])..], 12 - limit))
  {
    EndsIff(text, limit);
    RoomyCut(text, limit);
    CutIsLate(text[..limit]);
    PassIsStripped(text, limit);
    var rest := text[CutOf(text[..limit])..];
    assert From(text, CutOf(text[..limit])) == rest;
    StripKeepsTail(rest, 12 - limit);
  }

  /** With a limit of 12 it is: exactly when there is nothing but whitespace behind the first cut. */
  lemma EndsIffTwelve(text: string)
    requires 12 < |text|
    ensures Ends(text, 12) <==> AllSpace(text[CutOf(text[..12])..])
  {
    EndsIff(text, 12);
    RoomyCut(text, 12);
    CutIsLate(text[..12]);
    var rest := text[CutOf(text[..12])..];
    assert From(text, CutOf(text[..12])) == rest;
    assert AllSpace(rest) <==> Leading(rest) == |rest|;
  }

  lemma Absent(segment: string, sep: string, i: int)
    requires sep != "" && sep[|sep| - 1] !in segment
    ensures !OccursAt(segment, sep, i)
  {
    if 0 <= i <= |segment| - |sep| {
      assert segment[i..i + |sep|][|sep| - 1] == segment[i + |sep| - 1];
    }
  }

  /** A segment without blanks and line ends is cut at its end. */
  lemma HardCut(segment: string)
    requires segment != "" && ' ' !in segment && '\n' !in segment
    ensures CutOf(segment) == |segment|
  {
    CutIsLate(segment);
    Absent(segment, "\n\n", CutOf(segment));
    Absent(segment, ". ", CutOf(segment) - 2);
    Absent(segment, " ", CutOf(segment));
  }

  /** Thirteen letters are never finished with a limit of 12; twelve letters and a blank are. */
  lemma ThirteenLetters()
    ensures !Ends("abcdefghijklm", 12) && Ends("abcdefghijkl ", 12)
  {
    NeverEnds("abcdefghijklm", 12);
    var letters := "abcdefghijkl";
    HardCut(letters);
    EndsIffTwelve(letters + " ");
    assert (letters + " ")[..12] == letters && (letters + " ")[12..] == " ";
    assert letters + " " == "abcdefghijkl ";
  }
}
