/**
 Batching and bisecting retry of the embedding migration (scripts/voyage_migrate_embeddings.py).

 `ChunkRows` is the greedy generator `chunk_rows`; it is shown to use as few batches as any
 split of the rows could.  `EmbedRows` is the retrying request `embed_rows`; whatever the
 endpoint answers, it stops, stays within a request budget, and returns vectors that line
 up with the rows.
 */
module VoyageBatches {
  import opened Wrappers

  datatype Row = Row(id: string, content: string)

  /** max(1, ceil(len / 3.5)). */
  function EstimateTokens(text: string): nat {
    if text == "" then 1 else (2 * |text| + 6) / 7
  }

  /** The estimate is the least whole number of tokens, one at least, whose 3.5-character shares cover the text. */
  lemma EstimateIsCeiling(text: string)
    ensures 1 <= EstimateTokens(text)
    ensures forall n: nat :: 1 <= n ==> (EstimateTokens(text) <= n <==> 2 * |text| <= 7 * n)
  {}

  // ----- Greedy batches -----

  function Tokens(rows: seq<Row>): nat {
    if rows == [] then 0 else Tokens(rows[..|rows| - 1]) + EstimateTokens(rows[|rows| - 1].content)
  }

  /** A batch the limits allow: within both, or a single row. */
  predicate Allowed(batch: seq<Row>, maxTexts: int, maxTokens: int) {
    |batch| == 1 || (1 < |batch| <= maxTexts && Tokens(batch) <= maxTokens)
  }

  function Flatten(batches: seq<seq<Row>>): seq<Row> {
    if batches == [] then [] else Flatten(batches[..|batches| - 1]) + batches[|batches| - 1]
  }

  /** `batches` cuts `rows`, in order, into allowed batches. */
  ghost predicate IsSplit(batches: seq<seq<Row>>, rows: seq<Row>, maxTexts: int, maxTokens: int) {
    && Flatten(batches) == rows
    && forall i :: 0 <= i < |batches| ==> Allowed(batches[i], maxTexts, maxTokens)
  }

  /** Every split of `rows` has at least `count` batches, and one with exactly that many has a
      last batch no shorter than `last`. */
  ghost predicate Minimal(rows: seq<Row>, count: nat, last: nat, maxTexts: int, maxTokens: int) {
    forall s {:trigger IsSplit(s, rows, maxTexts, maxTokens)} :: IsSplit(s, rows, maxTexts, maxTokens) ==>
      count <= |s| && (|s| == count && 0 < count ==> last <= |s[count - 1]|)
  }

  /** Dropping the last row of a split shortens, or removes, its last batch. */
  lemma DropLastRow(s: seq<seq<Row>>, rows: seq<Row>, row: Row, maxTexts: int, maxTokens: int) returns (t: seq<seq<Row>>)
    requires IsSplit(s, rows + [row], maxTexts, maxTokens)
    ensures 0 < |s| && IsSplit(t, rows, maxTexts, maxTokens)
    ensures |s[|s| - 1]| == 1 ==> |t| == |s| - 1
    ensures |s[|s| - 1]| != 1 ==> |t| == |s| && t[|t| - 1] + [row] == s[|s| - 1]
  {
    var front, b := s[..|s| - 1], s[|s| - 1];
    assert Flatten(s) == Flatten(front) + b;
    assert b[|b| - 1] == (rows + [row])[|rows|] == row;
    assert rows == (rows + [row])[..|rows|] == Flatten(front) + b[..|b| - 1];
    if |b| == 1 {
      t := front;
    } else {
      t := front + [b[..|b| - 1]];
      assert t[..|t| - 1] == front;
    }
  }

  /** If the new row fits the last batch, adding it there is still minimal. */
  lemma MinimalGrows(rows: seq<Row>, row: Row, count: nat, last: nat, maxTexts: int, maxTokens: int)
    requires Minimal(rows, count, last, maxTexts, maxTokens)
    ensures Minimal(rows + [row], count, last + 1, maxTexts, maxTokens)
  {
    forall s | IsSplit(s, rows + [row], maxTexts, maxTokens)
      ensures count <= |s| && (|s| == count && 0 < count ==> last + 1 <= |s[count - 1]|)
    {
      var t := DropLastRow(s, rows, row, maxTexts, maxTokens);
      assert IsSplit(t, rows, maxTexts, maxTokens);
    }
  }

  /** If it does not fit, one more batch is needed. */
  lemma MinimalBreaks(rows: seq<Row>, row: Row, batch: seq<Row>, count: nat, maxTexts: int, maxTokens: int)
    requires Minimal(rows, count, |batch|, maxTexts, maxTokens)
    requires 0 < |batch| <= |rows| && batch == rows[|rows| - |batch|..] && 0 < count
    requires maxTexts <= |batch| || maxTokens < Tokens(batch) + EstimateTokens(row.content)
    ensures Minimal(rows + [row], count + 1, 1, maxTexts, maxTokens)
  {
    forall s | IsSplit(s, rows + [row], maxTexts, maxTokens)
      ensures count + 1 <= |s| && (|s| == count + 1 ==> 1 <= |s[count]|)
    {
      var t := DropLastRow(s, rows, row, maxTexts, maxTokens);
      assert IsSplit(t, rows, maxTexts, maxTokens);
      if |s[|s| - 1]| != 1 && |t| == count {
        var kept := t[count - 1];
        assert Flatten(t) == Flatten(t[..count - 1]) + kept;
        assert kept == rows[|rows| - |kept|..];
        assert batch == kept[|kept| - |batch|..];
        TokensOfSuffix(kept, |kept| - |batch|);
        TokensOfNext(kept, row);
      }
    }
  }

  lemma {:induction false} TokensOfSuffix(rows: seq<Row>, k: nat)
    requires k <= |rows|
    ensures Tokens(rows[k..]) <= Tokens(rows)
  {
    if k < |rows| {
      assert rows[k..][..|rows| - k - 1] == rows[..|rows| - 1][k..];
      TokensOfSuffix(rows[..|rows| - 1], k);
    }
  }

  lemma TokensOfNext(rows: seq<Row>, row: Row)
    ensures Tokens(rows + [row]) == Tokens(rows) + EstimateTokens(row.content)
  {
    assert (rows + [row])[..|rows|] == rows;
  }

  lemma FlattenNext(batches: seq<seq<Row>>, batch: seq<Row>)
    ensures Flatten(batches + [batch]) == Flatten(batches) + batch
  {
    assert (batches + [batch])[..|batches|] == batches;
  }

  /** The yielded batches are allowed, and with the open one they hold the rows `done`. */
  ghost predicate Closed(done: seq<Row>, batches: seq<seq<Row>>, batch: seq<Row>, maxTexts: int, maxTokens: int) {
    && Flatten(batches) + batch == done
    && (forall i :: 0 <= i < |batches| ==> Allowed(batches[i], maxTexts, maxTokens))
  }

  lemma ClosedGrows(done: seq<Row>, batches: seq<seq<Row>>, batch: seq<Row>, row: Row, maxTexts: int, maxTokens: int)
    requires Closed(done, batches, batch, maxTexts, maxTokens)
    ensures Closed(done + [row], batches, batch + [row], maxTexts, maxTokens)
  {
    assert Flatten(batches) + (batch + [row]) == (Flatten(batches) + batch) + [row];
  }

  /** The state of the generator after the rows `done`: the yielded batches and the open one. */
  ghost predicate Progress(done: seq<Row>, batches: seq<seq<Row>>, batch: seq<Row>, maxTexts: int, maxTokens: int) {
    && Closed(done, batches, batch, maxTexts, maxTokens)
    && if batch == [] then done == [] && batches == []
       else Allowed(batch, maxTexts, maxTokens) && Minimal(done, |batches| + 1, |batch|, maxTexts, maxTokens)
  }

  lemma ProgressStarts(row: Row, maxTexts: int, maxTokens: int)
    ensures Progress([row], [], [row], maxTexts, maxTokens)
  {
    MinimalStart(row, maxTexts, maxTokens);
  }

  lemma ProgressFits(done: seq<Row>, batches: seq<seq<Row>>, batch: seq<Row>, row: Row, maxTexts: int, maxTokens: int)
    requires batch != [] && Progress(done, batches, batch, maxTexts, maxTokens)
    requires |batch| < maxTexts && Tokens(batch) + EstimateTokens(row.content) <= maxTokens
    ensures Progress(done + [row], batches, batch + [row], maxTexts, maxTokens)
  {
    AllowedGrows(batch, row, maxTexts, maxTokens);
    ClosedGrows(done, batches, batch, row, maxTexts, maxTokens);
    MinimalGrows(done, row, |batches| + 1, |batch|, maxTexts, maxTokens);
    StillProgress(done + [row], batches, batch + [row], maxTexts, maxTokens);
  }

  lemma AllowedGrows(batch: seq<Row>, row: Row, maxTexts: int, maxTokens: int)
    requires |batch| < maxTexts && Tokens(batch) + EstimateTokens(row.content) <= maxTokens
    ensures Allowed(batch + [row], maxTexts, maxTokens)
  {
    TokensOfNext(batch, row);
  }

  lemma StillProgress(done: seq<Row>, batches: seq<seq<Row>>, batch: seq<Row>, maxTexts: int, maxTokens: int)
    requires batch != [] && Closed(done, batches, batch, maxTexts, maxTokens) && Allowed(batch, maxTexts, maxTokens)
    requires Minimal(done, |batches| + 1, |batch|, maxTexts, maxTokens)
    ensures Progress(done, batches, batch, maxTexts, maxTokens)
  {}

  lemma ProgressBreaks(done: seq<Row>, batches: seq<seq<Row>>, batch: seq<Row>, row: Row, maxTexts: int, maxTokens: int)
    requires Progress(done, batches, batch, maxTexts, maxTokens)
    requires batch != [] && (maxTexts <= |batch| || maxTokens < Tokens(batch) + EstimateTokens(row.content))
    ensures Progress(done + [row], batches + [batch], [row], maxTexts, maxTokens)
  {
    FlattenNext(batches, batch);
    assert batch == done[|done| - |batch|..];
    MinimalBreaks(done, row, batch, |batches| + 1, maxTexts, maxTokens);
  }

  /** The variables of the generator. */
  datatype Loop = Loop(batches: seq<seq<Row>>, batch: seq<Row>, tokenSum: nat)

  ghost predicate LoopOk(done: seq<Row>, l: Loop, maxTexts: int, maxTokens: int) {
    Progress(done, l.batches, l.batch, maxTexts, maxTokens) && l.tokenSum == Tokens(l.batch)
  }

  /** One pass of the loop body. */
  function Advance(l: Loop, row: Row, maxTexts: int, maxTokens: int): Loop {
    var t := EstimateTokens(row.content);
    if l.batch != [] && (|l.batch| >= maxTexts || l.tokenSum + t > maxTokens) then Loop(l.batches + [l.batch], [row], t)
    else Loop(l.batches, l.batch + [row], l.tokenSum + t)
  }

  lemma AdvanceOk(done: seq<Row>, l: Loop, row: Row, maxTexts: int, maxTokens: int)
    requires LoopOk(done, l, maxTexts, maxTokens)
    ensures LoopOk(done + [row], Advance(l, row, maxTexts, maxTokens), maxTexts, maxTokens)
  {
    TokensOfNext(l.batch, row);
    if l.batch == [] {
      assert done + [row] == [row] && l.batch + [row] == [row];
      ProgressStarts(row, maxTexts, maxTokens);
    } else if |l.batch| >= maxTexts || l.tokenSum + EstimateTokens(row.content) > maxTokens {
      ProgressBreaks(done, l.batches, l.batch, row, maxTexts, maxTokens);
      TokensOfNext([], row);
    } else {
      ProgressFits(done, l.batches, l.batch, row, maxTexts, maxTokens);
    }
  }

  /** A split with as few batches as any. */
  ghost predicate Optimal(batches: seq<seq<Row>>, rows: seq<Row>, maxTexts: int, maxTokens: int) {
    && IsSplit(batches, rows, maxTexts, maxTokens)
    && forall s {:trigger IsSplit(s, rows, maxTexts, maxTokens)} ::
         IsSplit(s, rows, maxTexts, maxTokens) ==> |batches| <= |s|
  }

  lemma ProgressEnds(rows: seq<Row>, batches: seq<seq<Row>>, batch: seq<Row>, maxTexts: int, maxTokens: int)
    requires Progress(rows, batches, batch, maxTexts, maxTokens)
    ensures Optimal(if batch == [] then batches else batches + [batch], rows, maxTexts, maxTokens)
  {
    if batch != [] {
      FlattenNext(batches, batch);
    }
  }

  /** The loop over all rows, as a function. */
  function Run(rows: seq<Row>, maxTexts: int, maxTokens: int): Loop
    decreases |rows|
  {
    if rows == [] then Loop([], [], 0)
    else Advance(Run(rows[..|rows| - 1], maxTexts, maxTokens), rows[|rows| - 1], maxTexts, maxTokens)
  }

  /** The last batch is yielded unless it is empty. */
  function Yielded(l: Loop): seq<seq<Row>> {
    if l.batch == [] then l.batches else l.batches + [l.batch]
  }

  lemma {:induction false} RunIsOk(rows: seq<Row>, maxTexts: int, maxTokens: int)
    ensures LoopOk(rows, Run(rows, maxTexts, maxTokens), maxTexts, maxTokens)
    decreases |rows|
  {
    if rows != [] {
      var front, row := rows[..|rows| - 1], rows[|rows| - 1];
      RunIsOk(front, maxTexts, maxTokens);
      AdvanceOk(front, Run(front, maxTexts, maxTokens), row, maxTexts, maxTokens);
      assert front + [row] == rows;
    }
  }

  /** Greedy batching yields as few batches as any split within the limits. */
  lemma GreedyIsOptimal(rows: seq<Row>, maxTexts: int, maxTokens: int)
    ensures Optimal(Yielded(Run(rows, maxTexts, maxTokens)), rows, maxTexts, maxTokens)
  {
    RunIsOk(rows, maxTexts, maxTokens);
    var l := Run(rows, maxTexts, maxTokens);
    ProgressEnds(rows, l.batches, l.batch, maxTexts, maxTokens);
  }

  lemma RunNext(rows: seq<Row>, i: nat, maxTexts: int, maxTokens: int)
    requires i < |rows|
    ensures Run(rows[..i + 1], maxTexts, maxTokens) == Advance(Run(rows[..i], maxTexts, maxTokens), rows[i], maxTexts, maxTokens)
  {
    assert rows[..i + 1][..i] == rows[..i];
  }

  /** `chunk_rows`, its yielded batches collected in order. */
  method ChunkRows(rows: seq<Row>, maxTexts: int, maxTokens: int) returns (batches: seq<seq<Row>>)
    ensures Optimal(batches, rows, maxTexts, maxTokens)
  {
    batches := [];
    var batch: seq<Row>, tokenSum: nat := [], 0;
    for i := 0 to |rows|
      invariant Loop(batches, batch, tokenSum) == Run(rows[..i], maxTexts, maxTokens)
    {
      RunNext(rows, i, maxTexts, maxTokens);
      var row := rows[i];
      var t := EstimateTokens(row.content);
      if batch != [] && (|batch| >= maxTexts || tokenSum + t > maxTokens) {
        batches := batches + [batch];
        batch, tokenSum := [], 0;
      }
      batch := batch + [row];
      tokenSum := tokenSum + t;
    }
    assert rows[..|rows|] == rows;
    GreedyIsOptimal(rows, maxTexts, maxTokens);
    if batch != [] {
      batches := batches + [batch];
    }
  }

  lemma MinimalStart(row: Row, maxTexts: int, maxTokens: int)
    ensures Minimal([row], 1, 1, maxTexts, maxTokens)
  {
    forall s | IsSplit(s, [row], maxTexts, maxTokens) ensures 1 <= |s| && (|s| == 1 ==> 1 <= |s[0]|) {
      assert Flatten([]) == [];
    }
  }

  // ----- Bisecting retry -----

  type Vec = seq<real>

  datatype Item = Item(index: int, embedding: Vec)

  /** One reply of the endpoint.  A malformed body is an `OtherError`. */
  datatype Reply = Answer(items: seq<Item>) | StatusError | OtherError

  /** The endpoint's reply to the i-th request, given its rows and attempt number. */
  type Endpoint = (nat, seq<Row>, nat) -> Reply

  /** A return with the vectors, or a raise, after `sent` requests in all. */
  datatype Outcome = Outcome(sent: nat, vectors: Option<seq<Vec>>)

  /** `sorted(data, key=index)`: insertion after the items that are not larger. */
  function SortByIndex(items: seq<Item>): seq<Item> {
    if items == [] then [] else Insert(SortByIndex(items[..|items| - 1]), items[|items| - 1])
  }

  function Insert(sorted: seq<Item>, x: Item): seq<Item> {
    if sorted == [] || sorted[|sorted| - 1].index <= x.index then sorted + [x]
    else Insert(sorted[..|sorted| - 1], x) + [sorted[|sorted| - 1]]
  }

  /** The vectors of a reply that passes the checks. */
  function Accept(reply: Reply, count: nat, dim: nat): Option<seq<Vec>> {
    match reply
    case Answer(items) =>
      var ordered := SortByIndex(items);
      var embeddings := seq(|ordered|, i requires 0 <= i < |ordered| => ordered[i].embedding);
      if |embeddings| != count || exists i :: 0 <= i < |embeddings| && |embeddings[i]| != dim then None
      else Some(embeddings)
    case _ => None
  }

  /** `embed_rows`, with the requests already sent. */
  function EmbedRows(endpoint: Endpoint, sent: nat, rows: seq<Row>, dim: nat, attempt: nat): (r: Outcome)
    ensures sent < r.sent
    decreases |rows|, if attempt < 5 then 5 - attempt else 0
  {
    var reply := endpoint(sent, rows, attempt);
    var accepted := Accept(reply, |rows|, dim);
    if accepted.Some? then Outcome(sent + 1, accepted)
    else if 1 < |rows| && (2 <= attempt || reply.StatusError?) then
      var mid := |rows| / 2;
      var left := EmbedRows(endpoint, sent + 1, rows[..mid], dim, 1);
      if left.vectors.None? then left else
      var right := EmbedRows(endpoint, left.sent, rows[mid..], dim, 1);
      if right.vectors.None? then right
      else Outcome(right.sent, Some(left.vectors.value + right.vectors.value))
    else if attempt < 5 then EmbedRows(endpoint, sent + 1, rows, dim, attempt + 1)
    else Outcome(sent + 1, None)
  }

  function Budget(count: nat, attempt: nat): nat {
    if count <= 1 then if attempt < 5 then 6 - attempt else 1
    else if attempt < 2 then 7 * count - 1 - attempt
    else 7 * count - 3
  }

  lemma {:induction false} WithinBudget(endpoint: Endpoint, sent: nat, rows: seq<Row>, dim: nat, attempt: nat)
    requires 1 <= attempt
    ensures EmbedRows(endpoint, sent, rows, dim, attempt).sent - sent <= Budget(|rows|, attempt)
    decreases |rows|, if attempt < 5 then 5 - attempt else 0
  {
    var reply := endpoint(sent, rows, attempt);
    if Accept(reply, |rows|, dim).None? {
      if 1 < |rows| && (2 <= attempt || reply.StatusError?) {
        var mid := |rows| / 2;
        WithinBudget(endpoint, sent + 1, rows[..mid], dim, 1);
        var left := EmbedRows(endpoint, sent + 1, rows[..mid], dim, 1);
        WithinBudget(endpoint, left.sent, rows[mid..], dim, 1);
      } else if attempt < 5 {
        WithinBudget(endpoint, sent + 1, rows, dim, attempt + 1);
      }
    }
  }

  /** At most 7n - 2 requests for n rows, whatever the endpoint replies. */
  lemma RequestBudget(endpoint: Endpoint, sent: nat, rows: seq<Row>, dim: nat)
    requires rows != []
    ensures EmbedRows(endpoint, sent, rows, dim, 1).sent - sent <= 7 * |rows| - 2
  {
    WithinBudget(endpoint, sent, rows, dim, 1);
  }

  /** Every group of rows fails with a transport error, every single row four times. */
  function WorstEndpoint(vec: Vec): Endpoint {
    (i: nat, rows: seq<Row>, attempt: nat) => if |rows| > 1 || attempt < 5 then OtherError else Answer([Item(0, vec)])
  }

  /** The bound is met, by a call that succeeds. */
  lemma {:induction false} BudgetIsTight(sent: nat, rows: seq<Row>, vec: Vec)
    requires rows != []
    ensures EmbedRows(WorstEndpoint(vec), sent, rows, |vec|, 1).vectors.Some?
    ensures EmbedRows(WorstEndpoint(vec), sent, rows, |vec|, 1).sent == sent + 7 * |rows| - 2
    decreases |rows|
  {
    var e, d := WorstEndpoint(vec), |vec|;
    if |rows| == 1 {
      assert SortByIndex([Item(0, vec)]) == [Item(0, vec)] by { assert [Item(0, vec)][..0] == []; }
      assert EmbedRows(e, sent + 4, rows, d, 5).sent == sent + 5;
      assert EmbedRows(e, sent + 3, rows, d, 4) == EmbedRows(e, sent + 4, rows, d, 5);
      assert EmbedRows(e, sent + 2, rows, d, 3) == EmbedRows(e, sent + 3, rows, d, 4);
      assert EmbedRows(e, sent + 1, rows, d, 2) == EmbedRows(e, sent + 2, rows, d, 3);
    } else {
      var mid := |rows| / 2;
      assert EmbedRows(e, sent, rows, d, 1) == EmbedRows(e, sent + 1, rows, d, 2);
      BudgetIsTight(sent + 2, rows[..mid], vec);
      var left := EmbedRows(e, sent + 2, rows[..mid], d, 1);
      BudgetIsTight(left.sent, rows[mid..], vec);
    }
  }

  /** One vector of the right dimension per row. */
  lemma {:induction false} OneVectorPerRow(endpoint: Endpoint, sent: nat, rows: seq<Row>, dim: nat, attempt: nat)
    requires EmbedRows(endpoint, sent, rows, dim, attempt).vectors.Some?
    ensures var v := EmbedRows(endpoint, sent, rows, dim, attempt).vectors.value;
      |v| == |rows| && forall k :: 0 <= k < |v| ==> |v[k]| == dim
    decreases |rows|, if attempt < 5 then 5 - attempt else 0
  {
    var reply := endpoint(sent, rows, attempt);
    if Accept(reply, |rows|, dim).None? {
      if 1 < |rows| && (2 <= attempt || reply.StatusError?) {
        var mid := |rows| / 2;
        var left := EmbedRows(endpoint, sent + 1, rows[..mid], dim, 1);
        OneVectorPerRow(endpoint, sent + 1, rows[..mid], dim, 1);
        OneVectorPerRow(endpoint, left.sent, rows[mid..], dim, 1);
      } else {
        OneVectorPerRow(endpoint, sent + 1, rows, dim, attempt + 1);
      }
    }
  }

  /** Each item carries the embedding of the row its index names, and no index comes twice. */
  ghost predicate Honest(items: seq<Item>, rows: seq<Row>, embedding: string -> Vec) {
    && (forall x :: x in multiset(items) ==>
          0 <= x.index < |rows| && x.embedding == embedding(rows[x.index].content) && multiset(items)[x] == 1)
    && (forall x, y :: x in multiset(items) && y in multiset(items) && x.index == y.index ==> x == y)
  }

  ghost predicate HonestEndpoint(endpoint: Endpoint, embedding: string -> Vec) {
    forall i, rows, attempt :: endpoint(i, rows, attempt).Answer? ==> Honest(endpoint(i, rows, attempt).items, rows, embedding)
  }

  ghost predicate Ordered(items: seq<Item>) {
    forall i, j :: 0 <= i < j < |items| ==> items[i].index <= items[j].index
  }

  lemma {:induction false} InsertKeeps(sorted: seq<Item>, x: Item)
    ensures multiset(Insert(sorted, x)) == multiset(sorted) + multiset{x}
    decreases |sorted|
  {
    if sorted != [] && sorted[|sorted| - 1].index > x.index {
      InsertKeeps(sorted[..|sorted| - 1], x);
      assert sorted == sorted[..|sorted| - 1] + [sorted[|sorted| - 1]];
    }
  }

  lemma {:induction false} InsertSorts(sorted: seq<Item>, x: Item)
    requires Ordered(sorted)
    ensures Ordered(Insert(sorted, x))
    decreases |sorted|
  {
    if sorted != [] && sorted[|sorted| - 1].index > x.index {
      var front, last := sorted[..|sorted| - 1], sorted[|sorted| - 1];
      InsertSorts(front, x);
      InsertKeeps(front, x);
      var placed := Insert(front, x);
      forall i | 0 <= i < |placed| ensures placed[i].index <= last.index {
        assert placed[i] in multiset(placed);
        assert placed[i] in front || placed[i] == x;
      }
    }
  }

  lemma {:induction false} SortSorts(items: seq<Item>)
    ensures multiset(SortByIndex(items)) == multiset(items) && Ordered(SortByIndex(items))
    decreases |items|
  {
    if items != [] {
      var front, last := items[..|items| - 1], items[|items| - 1];
      SortSorts(front);
      InsertSorts(SortByIndex(front), last);
      InsertKeeps(SortByIndex(front), last);
      assert items == front + [last];
    }
  }

  lemma TwiceInMultiset(s: seq<Item>, i: nat, j: nat)
    requires i < j < |s| && s[i] == s[j]
    ensures 2 <= multiset(s)[s[i]]
  {
    assert s == s[..i + 1] + s[i + 1..];
    assert s[i] in multiset(s[..i + 1]) by { assert s[..i + 1][i] == s[i]; }
    assert s[j] in multiset(s[i + 1..]) by { assert s[i + 1..][j - i - 1] == s[j]; }
  }

  lemma HonestIsStrict(items: seq<Item>, rows: seq<Row>, embedding: string -> Vec, i: nat, j: nat)
    requires Honest(items, rows, embedding) && i < j < |SortByIndex(items)|
    ensures SortByIndex(items)[i].index < SortByIndex(items)[j].index
  {
    SortSorts(items);
    var s := SortByIndex(items);
    assert s[i] in multiset(s) && s[j] in multiset(s);
    if s[i].index == s[j].index {
      TwiceInMultiset(s, i, j);
    }
  }

  /** In an honest and complete reply the k-th item in index order has index k. */
  lemma {:induction false} HonestInPlace(items: seq<Item>, rows: seq<Row>, embedding: string -> Vec, k: nat)
    requires Honest(items, rows, embedding) && |items| == |rows| && k < |rows|
    ensures |SortByIndex(items)| == |rows| && SortByIndex(items)[k].index == k
  {
    SortSorts(items);
    var s := SortByIndex(items);
    assert |multiset(s)| == |s|;
    IndexAtLeast(items, rows, embedding, k);
    IndexAtMost(items, rows, embedding, k);
  }

  lemma {:induction false} IndexAtLeast(items: seq<Item>, rows: seq<Row>, embedding: string -> Vec, k: nat)
    requires Honest(items, rows, embedding) && k < |SortByIndex(items)|
    ensures k <= SortByIndex(items)[k].index
  {
    if k == 0 {
      SortSorts(items);
      assert SortByIndex(items)[0] in multiset(items);
    } else {
      IndexAtLeast(items, rows, embedding, k - 1);
      HonestIsStrict(items, rows, embedding, k - 1, k);
    }
  }

  lemma {:induction false} IndexAtMost(items: seq<Item>, rows: seq<Row>, embedding: string -> Vec, k: nat)
    requires Honest(items, rows, embedding) && |SortByIndex(items)| == |rows| && k < |rows|
    ensures SortByIndex(items)[k].index <= k
    decreases |rows| - k
  {
    if k == |rows| - 1 {
      SortSorts(items);
      assert SortByIndex(items)[k] in multiset(items);
    } else {
      IndexAtMost(items, rows, embedding, k + 1);
      HonestIsStrict(items, rows, embedding, k, k + 1);
    }
  }

  /** Vector k is the embedding of row k. */
  ghost predicate Aligned(vectors: seq<Vec>, rows: seq<Row>, embedding: string -> Vec) {
    |vectors| == |rows| && forall k :: 0 <= k < |rows| ==> vectors[k] == embedding(rows[k].content)
  }

  lemma AcceptAligned(reply: Reply, rows: seq<Row>, dim: nat, embedding: string -> Vec)
    requires reply.Answer? && Honest(reply.items, rows, embedding) && Accept(reply, |rows|, dim).Some?
    ensures Aligned(Accept(reply, |rows|, dim).value, rows, embedding)
  {
    var s := SortByIndex(reply.items);
    SortSorts(reply.items);
    assert |multiset(s)| == |s| && |multiset(reply.items)| == |reply.items|;
    forall k | 0 <= k < |rows| ensures s[k].embedding == embedding(rows[k].content) {
      HonestInPlace(reply.items, rows, embedding, k);
      assert s[k] in multiset(reply.items);
    }
  }

  lemma AlignedJoin(left: seq<Vec>, right: seq<Vec>, rows: seq<Row>, mid: nat, embedding: string -> Vec)
    requires mid <= |rows| && Aligned(left, rows[..mid], embedding) && Aligned(right, rows[mid..], embedding)
    ensures Aligned(left + right, rows, embedding)
  {}

  /** A bisection that returns has joined what its halves returned. */
  lemma BisectionIs(endpoint: Endpoint, sent: nat, rows: seq<Row>, dim: nat, attempt: nat)
    requires 1 < |rows| && Accept(endpoint(sent, rows, attempt), |rows|, dim).None?
    requires 2 <= attempt || endpoint(sent, rows, attempt).StatusError?
    requires EmbedRows(endpoint, sent, rows, dim, attempt).vectors.Some?
    ensures var mid := |rows| / 2;
      var left := EmbedRows(endpoint, sent + 1, rows[..mid], dim, 1);
      var right := EmbedRows(endpoint, left.sent, rows[mid..], dim, 1);
      && left.vectors.Some? && right.vectors.Some?
      && EmbedRows(endpoint, sent, rows, dim, attempt).vectors.value == left.vectors.value + right.vectors.value
  {}

  /** Across all bisections, the k-th vector is the embedding of the k-th row. */
  lemma {:induction false} VectorsAligned(endpoint: Endpoint, sent: nat, rows: seq<Row>, dim: nat, attempt: nat, embedding: string -> Vec)
    requires HonestEndpoint(endpoint, embedding)
    requires EmbedRows(endpoint, sent, rows, dim, attempt).vectors.Some?
    ensures Aligned(EmbedRows(endpoint, sent, rows, dim, attempt).vectors.value, rows, embedding)
    decreases |rows|, if attempt < 5 then 5 - attempt else 0
  {
    var reply := endpoint(sent, rows, attempt);
    if Accept(reply, |rows|, dim).Some? {
      AcceptAligned(reply, rows, dim, embedding);
    } else if 1 < |rows| && (2 <= attempt || reply.StatusError?) {
      BisectionIs(endpoint, sent, rows, dim, attempt);
      var mid := |rows| / 2;
      var left := EmbedRows(endpoint, sent + 1, rows[..mid], dim, 1);
      VectorsAligned(endpoint, sent + 1, rows[..mid], dim, 1, embedding);
      VectorsAligned(endpoint, left.sent, rows[mid..], dim, 1, embedding);
      var right := EmbedRows(endpoint, left.sent, rows[mid..], dim, 1);
      AlignedJoin(left.vectors.value, right.vectors.value, rows, mid, embedding);
    } else {
      VectorsAligned(endpoint, sent + 1, rows, dim, attempt + 1, embedding);
    }
  }

  /** Bisection isolates failures: the call raises only over a single row whose fifth request fails. */
  lemma {:induction false} SucceedsIfRowsDo(endpoint: Endpoint, sent: nat, rows: seq<Row>, dim: nat, attempt: nat)
    requires rows != [] && 1 <= attempt <= 5
    requires forall i, row :: row in rows ==> Accept(endpoint(i, [row], 5), 1, dim).Some?
    ensures EmbedRows(endpoint, sent, rows, dim, attempt).vectors.Some?
    decreases |rows|, 5 - attempt
  {
    var reply := endpoint(sent, rows, attempt);
    assert |rows| == 1 ==> rows == [rows[0]];
    if Accept(reply, |rows|, dim).None? {
      if 1 < |rows| && (2 <= attempt || reply.StatusError?) {
        var mid := |rows| / 2;
        SucceedsIfRowsDo(endpoint, sent + 1, rows[..mid], dim, 1);
        var left := EmbedRows(endpoint, sent + 1, rows[..mid], dim, 1);
        SucceedsIfRowsDo(endpoint, left.sent, rows[mid..], dim, 1);
      } else if attempt < 5 {
        SucceedsIfRowsDo(endpoint, sent + 1, rows, dim, attempt + 1);
      }
    }
  }
}
