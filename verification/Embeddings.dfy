/** The embeddings client: batches, one retry and the answer put in the order of the texts (backend/app/core/embeddings.py). */
module Embeddings {
  import opened Wrappers

  datatype Result<+T> = Ok(value: T) | Err(error: EmbeddingError)
  datatype EmbeddingError = NoAnswer | BadStatus(code: int) | InvalidAnswer

  /** The raw list of an item, and a unit vector made of one. */
  type Raw = seq<real>
  type Vector = seq<real>

  /** What `_normalize` does, None when it rejects the list; square roots and floats are not part of this model. */
  type Normalize = Raw -> Option<Vector>

  /** An item of the answer; its index may be anything in JSON. */
  datatype Item = Malformed | Item(index: Option<int>, raw: Raw)

  datatype Response = TransportError | Answer(status: int, data: Option<seq<Item>>)

  /** The k-th call of the client is answered with this. */
  type Provider = (nat, seq<string>) -> Response

  const RETRYABLE_STATUS: set<int> := {429, 500, 502, 503, 504}

  // ---------------------------------------------------------------- one answer

  predicate GoodItem(normalize: Normalize, item: Item, expected: nat) {
    item.Item? && item.index.Some? && 0 <= item.index.value < expected && normalize(item.raw).Some?
  }

  /** As many items as texts, each for another text. */
  predicate GoodData(normalize: Normalize, data: seq<Item>, expected: nat) {
    && |data| == expected
    && (forall i :: 0 <= i < |data| ==> GoodItem(normalize, data[i], expected))
    && (forall i, j :: 0 <= i < j < |data| ==> data[i].index != data[j].index)
  }

  /** `vectors` holds, at its index, what each item brought. */
  predicate Placed(normalize: Normalize, data: seq<Item>, vectors: seq<Vector>)
    requires GoodData(normalize, data, |data|)
  {
    && |vectors| == |data|
    && forall i :: 0 <= i < |data| ==> vectors[data[i].index.value] == normalize(data[i].raw).value
  }

  // ---------------------------------------------------------------- distinct indices fill every slot

  function IndexOf(item: Item): int {
    if item.Item? && item.index.Some? then item.index.value else -1
  }

  /** The indices of the first `n` items. */
  function Indices(data: seq<Item>, n: nat): set<int>
    requires n <= |data|
  {
    if n == 0 then {} else Indices(data, n - 1) + {IndexOf(data[n - 1])}
  }

  lemma {:induction false} ItemOfAnIndex(data: seq<Item>, n: nat, x: int) returns (i: nat)
    requires n <= |data| && x in Indices(data, n)
    ensures i < n && IndexOf(data[i]) == x
  {
    if x == IndexOf(data[n - 1]) {
      i := n - 1;
    } else {
      i := ItemOfAnIndex(data, n - 1, x);
    }
  }

  lemma {:induction false} NewIndex(data: seq<Item>, n: nat, x: int)
    requires n <= |data| && forall i :: 0 <= i < n ==> IndexOf(data[i]) != x
    ensures x !in Indices(data, n)
  {
    if n > 0 {
      NewIndex(data, n - 1, x);
    }
  }

  lemma {:induction false} IndicesAreBelow(normalize: Normalize, data: seq<Item>, n: nat)
    requires n <= |data| && GoodData(normalize, data, |data|)
    ensures Indices(data, n) <= Below(|data|)
  {
    if n > 0 {
      IndicesAreBelow(normalize, data, n - 1);
    }
  }

  function Below(n: nat): (s: set<int>)
    ensures |s| == n && forall x :: x in s <==> 0 <= x < n
  {
    if n == 0 then {} else Below(n - 1) + {n - 1}
  }

  lemma {:induction false} DistinctIndicesCount(normalize: Normalize, data: seq<Item>, n: nat)
    requires n <= |data| && GoodData(normalize, data, |data|)
    ensures |Indices(data, n)| == n
    decreases n
  {
    if n > 0 {
      DistinctIndicesCount(normalize, data, n - 1);
      forall i | 0 <= i < n - 1 ensures IndexOf(data[i]) != IndexOf(data[n - 1]) {
        assert data[i].index != data[n - 1].index;
      }
      NewIndex(data, n - 1, IndexOf(data[n - 1]));
    }
  }

  lemma SubsetOfSameSize(a: set<int>, b: set<int>)
    requires a <= b && |a| == |b|
    ensures a == b
  {
    assert |b - a| == |b| - |a|;
  }

  lemma EverySlotIsFilled(normalize: Normalize, data: seq<Item>, slot: nat)
    requires GoodData(normalize, data, |data|) && slot < |data|
    ensures exists i :: 0 <= i < |data| && data[i].index == Some(slot)
  {
    DistinctIndicesCount(normalize, data, |data|);
    IndicesAreBelow(normalize, data, |data|);
    SubsetOfSameSize(Indices(data, |data|), Below(|data|));
    var i := ItemOfAnIndex(data, |data|, slot);
    assert data[i].index == Some(slot);
  }

  /** The filter at the end of `_parse`. */
  method Present(slots: array<Option<Vector>>) returns (vectors: seq<Vector>)
    ensures (forall i :: 0 <= i < slots.Length ==> slots[i].Some?) ==>
              |vectors| == slots.Length && forall i :: 0 <= i < slots.Length ==> vectors[i] == slots[i].value
  {
    vectors := [];
    for i := 0 to slots.Length
      invariant (forall j :: 0 <= j < i ==> slots[j].Some?) ==>
                  |vectors| == i && forall j :: 0 <= j < i ==> vectors[j] == slots[j].value
    {
      if slots[i].Some? {
        vectors := vectors + [slots[i].value];
      }
    }
  }

  /** The first `n` items are good, each for another slot, and their vectors are in `slots`. */
  predicate Filled(normalize: Normalize, items: seq<Item>, slots: seq<Option<Vector>>, n: nat)
    requires n <= |items|
  {
    && (forall j :: 0 <= j < n ==> GoodItem(normalize, items[j], |slots|))
    && (forall j, k :: 0 <= j < k < n ==> items[j].index != items[k].index)
    && (forall j :: 0 <= j < n ==> slots[items[j].index.value] == normalize(items[j].raw))
    && (forall s :: 0 <= s < |slots| && slots[s].Some? ==> exists j :: 0 <= j < n && items[j].index == Some(s))
  }

  lemma OneMoreFilled(normalize: Normalize, items: seq<Item>, slots: seq<Option<Vector>>, n: nat)
    requires n < |items| && Filled(normalize, items, slots, n)
    requires GoodItem(normalize, items[n], |slots|) && slots[items[n].index.value].None?
    ensures Filled(normalize, items, slots[items[n].index.value := normalize(items[n].raw)], n + 1)
  {
    var slots' := slots[items[n].index.value := normalize(items[n].raw)];
    forall j | 0 <= j < n
      ensures items[j].index != items[n].index
    {
      assert GoodItem(normalize, items[j], |slots|);
    }
    forall s | 0 <= s < |slots'| && slots'[s].Some?
      ensures exists j :: 0 <= j < n + 1 && items[j].index == Some(s)
    {
      if s == items[n].index.value {
        assert items[n].index == Some(s);
      }
    }
  }

  lemma TakenSlotIsBadData(normalize: Normalize, items: seq<Item>, slots: seq<Option<Vector>>, n: nat)
    requires n < |items| && Filled(normalize, items, slots, n)
    requires items[n].Item? && items[n].index.Some? && 0 <= items[n].index.value < |slots|
    requires slots[items[n].index.value].Some?
    ensures !GoodData(normalize, items, |slots|)
  {
    var j :| 0 <= j < n && items[j].index == Some(items[n].index.value);
  }

  /** The loop of `_parse`; it stops at the first item that is not good. */
  method Fill(normalize: Normalize, items: seq<Item>, slots: array<Option<Vector>>) returns (ok: bool)
    requires forall s :: 0 <= s < slots.Length ==> slots[s].None?
    requires |items| == slots.Length
    modifies slots
    ensures ok <==> GoodData(normalize, items, slots.Length)
    ensures ok ==> Filled(normalize, items, slots[..], |items|)
  {
    for i := 0 to |items|
      invariant Filled(normalize, items, slots[..], i)
    {
      var item := items[i];
      if item.Malformed? {
        return false;
      }
      if item.index.None? || !(0 <= item.index.value < slots.Length) {
        return false;
      }
      if slots[item.index.value].Some? {
        TakenSlotIsBadData(normalize, items, slots[..], i);
        return false;
      }
      var vector := normalize(item.raw);
      if vector.None? {
        return false;
      }
      OneMoreFilled(normalize, items, slots[..], i);
      slots[item.index.value] := vector;
    }
    return true;
  }

  /**
   `_parse`: the answer is taken exactly when it has one good item for each text, in any order; then every
   slot is filled and the filter drops nothing.
   */
  method Parse(normalize: Normalize, data: Option<seq<Item>>, expected: nat) returns (r: Result<seq<Vector>>)
    ensures r.Ok? <==> data.Some? && GoodData(normalize, data.value, expected)
    ensures r.Ok? ==> Placed(normalize, data.value, r.value)
    ensures r.Err? ==> r.error == InvalidAnswer
  {
    if data.None? || |data.value| != expected {
      return Err(InvalidAnswer);
    }
    var slots := new Option<Vector>[expected](_ => None);
    var ok := Fill(normalize, data.value, slots);
    if !ok {
      return Err(InvalidAnswer);
    }
    forall s | 0 <= s < expected
      ensures slots[s].Some?
    {
      EverySlotIsFilled(normalize, data.value, s);
    }
    var vectors := Present(slots);
    return Ok(vectors);
  }

  // ---------------------------------------------------------------- the retry and the batches

  predicate Retryable(r: Response) {
    r.TransportError? || r.status in RETRYABLE_STATUS
  }

  /** `r` is what the batch comes to when the provider's last word on it was `answer`. */
  predicate ComesTo(normalize: Normalize, answer: Response, expected: nat, r: Result<seq<Vector>>) {
    match answer
    case TransportError => r == Err(NoAnswer)
    case Answer(status, data) =>
      if status != 200 then r == Err(BadStatus(status))
      else if data.Some? && GoodData(normalize, data.value, expected) then r.Ok? && Placed(normalize, data.value, r.value)
      else r == Err(InvalidAnswer)
  }

  /** The call whose answer decides about a batch: the second one after a failure that may pass. */
  function DecidingCall(provider: Provider, calls: nat, batch: seq<string>): nat {
    if Retryable(provider(calls, batch)) then calls + 1 else calls
  }

  /** `_embed_batch`; `calls` counts the calls of the client. */
  method EmbedBatch(normalize: Normalize, provider: Provider, calls: nat, batch: seq<string>)
    returns (r: Result<seq<Vector>>, callsAfter: nat)
    ensures callsAfter == DecidingCall(provider, calls, batch) + 1
    ensures var first := provider(calls, batch);
            callsAfter == if first.TransportError? || first.status in {429, 500, 502, 503, 504} then calls + 2 else calls + 1
    ensures ComesTo(normalize, provider(callsAfter - 1, batch), |batch|, r)
  {
    callsAfter := calls;
    for attempt := 1 to 3
      invariant callsAfter == calls + attempt - 1
      invariant attempt > 1 ==> Retryable(provider(calls, batch))
      invariant attempt <= 2
    {
      var response := provider(callsAfter, batch);
      callsAfter := callsAfter + 1;
      if response.TransportError? {
        if attempt == 1 {
          continue;
        }
        return Err(NoAnswer), callsAfter;
      }
      if response.status in RETRYABLE_STATUS && attempt == 1 {
        continue;
      }
      if response.status != 200 {
        return Err(BadStatus(response.status)), callsAfter;
      }
      r := Parse(normalize, response.data, |batch|);
      return;
    }
  }

  predicate Accepts(normalize: Normalize, answer: Response, expected: nat) {
    answer.Answer? && answer.status == 200 && answer.data.Some? && GoodData(normalize, answer.data.value, expected)
  }

  function FirstBatch(texts: seq<string>, size: nat): seq<string> {
    if |texts| < size then texts else texts[..size]
  }

  /** Every batch of `texts` gets an answer that is taken. */
  predicate AllAccepted(normalize: Normalize, provider: Provider, calls: nat, texts: seq<string>, size: nat)
    requires size > 0
    decreases |texts|
  {
    texts != [] ==>
      var batch := FirstBatch(texts, size);
      var last := DecidingCall(provider, calls, batch);
      Accepts(normalize, provider(last, batch), |batch|) && AllAccepted(normalize, provider, last + 1, texts[|batch|..], size)
  }

  /** The first batch of `texts` whose answer is not taken comes to `error`. */
  predicate FailsWith(normalize: Normalize, provider: Provider, calls: nat, texts: seq<string>, size: nat, error: EmbeddingError)
    requires size > 0
    decreases |texts|
  {
    texts != [] &&
    var batch := FirstBatch(texts, size);
    var last := DecidingCall(provider, calls, batch);
    if Accepts(normalize, provider(last, batch), |batch|)
    then FailsWith(normalize, provider, last + 1, texts[|batch|..], size, error)
    else ComesTo(normalize, provider(last, batch), |batch|, Err(error))
  }

  /** The provider is right: the item for a text carries the embedding of that text, wherever it stands. */
  ghost predicate Faithful(normalize: Normalize, provider: Provider, embedding: string -> Raw) {
    forall k, batch :: Accepts(normalize, provider(k, batch), |batch|) ==>
      IsOf(provider(k, batch).data.value, batch, embedding)
  }

  predicate IsOf(data: seq<Item>, batch: seq<string>, embedding: string -> Raw) {
    forall i :: 0 <= i < |data| && 0 <= IndexOf(data[i]) < |batch| ==> data[i].raw == embedding(batch[IndexOf(data[i])])
  }

  ghost predicate Embedded(normalize: Normalize, texts: seq<string>, vectors: seq<Vector>, embedding: string -> Raw) {
    |vectors| == |texts| && forall i :: 0 <= i < |texts| ==> Some(vectors[i]) == normalize(embedding(texts[i]))
  }

  lemma BatchIsEmbedded(normalize: Normalize, provider: Provider, call: nat, batch: seq<string>,
                        vectors: seq<Vector>, embedding: string -> Raw)
    requires Faithful(normalize, provider, embedding) && Accepts(normalize, provider(call, batch), |batch|)
    requires Placed(normalize, provider(call, batch).data.value, vectors)
    ensures Embedded(normalize, batch, vectors, embedding)
  {
    var data := provider(call, batch).data.value;
    assert IsOf(data, batch, embedding);
    forall s | 0 <= s < |batch|
      ensures Some(vectors[s]) == normalize(embedding(batch[s]))
    {
      EverySlotIsFilled(normalize, data, s);
      var i :| 0 <= i < |data| && data[i].index == Some(s);
      assert GoodItem(normalize, data[i], |batch|) && IndexOf(data[i]) == s;
      assert vectors[data[i].index.value] == normalize(data[i].raw).value;
    }
  }

  lemma EmbeddedTogether(normalize: Normalize, a: seq<string>, b: seq<string>, u: seq<Vector>, v: seq<Vector>,
                         embedding: string -> Raw)
    requires Embedded(normalize, a, u, embedding) && Embedded(normalize, b, v, embedding)
    ensures Embedded(normalize, a + b, u + v, embedding)
  {
  }

  lemma OneBatchMore(normalize: Normalize, provider: Provider, call: nat, texts: seq<string>, start: nat, size: nat,
                     vectors: seq<Vector>, more: seq<Vector>, embedding: string -> Raw)
    requires size > 0 && start < |texts| && Faithful(normalize, provider, embedding)
    requires Embedded(normalize, texts[..start], vectors, embedding)
    requires var batch := FirstBatch(texts[start..], size);
             Accepts(normalize, provider(call, batch), |batch|) && Placed(normalize, provider(call, batch).data.value, more)
    ensures var batch := FirstBatch(texts[start..], size);
            Embedded(normalize, texts[..start + |batch|], vectors + more, embedding)
  {
    var batch := FirstBatch(texts[start..], size);
    BatchIsEmbedded(normalize, provider, call, batch, more, embedding);
    EmbeddedTogether(normalize, texts[..start], batch, vectors, more, embedding);
    assert texts[..start] + batch == texts[..start + |batch|];
  }

  /** One pass of the loop of `embed`. */
  method NextBatch(normalize: Normalize, provider: Provider, calls: nat, texts: seq<string>, start: nat, size: nat,
                   ghost vectors: seq<Vector>, ghost embedding: string -> Raw)
    returns (more: Result<seq<Vector>>, callsAfter: nat, next: nat)
    requires size > 0 && start < |texts|
    ensures start < next <= |texts|
    ensures more.Ok? ==> |more.value| == next - start
    ensures AllAccepted(normalize, provider, calls, texts[start..], size)
            == (more.Ok? && AllAccepted(normalize, provider, callsAfter, texts[next..], size))
    ensures more.Err? ==> FailsWith(normalize, provider, calls, texts[start..], size, more.error)
    ensures more.Ok? ==> forall e :: FailsWith(normalize, provider, callsAfter, texts[next..], size, e) ==>
                           FailsWith(normalize, provider, calls, texts[start..], size, e)
    ensures more.Ok? && Faithful(normalize, provider, embedding) && Embedded(normalize, texts[..start], vectors, embedding)
            ==> Embedded(normalize, texts[..next], vectors + more.value, embedding)
  {
    var batch := FirstBatch(texts[start..], size);
    next := start + |batch|;
    more, callsAfter := EmbedBatch(normalize, provider, calls, batch);
    assert texts[start..][|batch|..] == texts[next..];
    if more.Ok? && Faithful(normalize, provider, embedding) && Embedded(normalize, texts[..start], vectors, embedding) {
      OneBatchMore(normalize, provider, callsAfter - 1, texts, start, size, vectors, more.value, embedding);
    }
  }

  /** What `embed` promises of its result `r`. */
  ghost predicate IsResult(normalize: Normalize, provider: Provider, calls: nat, texts: seq<string>, size: nat,
                           embedding: string -> Raw, r: Result<seq<Vector>>)
    requires size > 0
  {
    && (r.Ok? <==> AllAccepted(normalize, provider, calls, texts, size))
    && (r.Ok? ==> |r.value| == |texts|)
    && (r.Err? ==> FailsWith(normalize, provider, calls, texts, size, r.error))
    && (r.Ok? && Faithful(normalize, provider, embedding) ==> Embedded(normalize, texts, r.value, embedding))
  }

  /**
   `embed`: one vector for each text, in the order of the texts, for any size of the batches and any order of the
   items in the answers; and it succeeds exactly when the answer to every batch is taken.
   */
  method Embed(normalize: Normalize, provider: Provider, calls: nat, texts: seq<string>, size: nat,
               ghost embedding: string -> Raw)
    returns (r: Result<seq<Vector>>)
    requires size > 0
    ensures IsResult(normalize, provider, calls, texts, size, embedding, r)
  {
    var vectors: seq<Vector> := [];
    var start, made := 0, calls;
    assert texts[0..] == texts;
    while start < |texts|
      invariant start <= |texts| && |vectors| == start
      invariant AllAccepted(normalize, provider, calls, texts, size)
                == AllAccepted(normalize, provider, made, texts[start..], size)
      invariant forall e :: FailsWith(normalize, provider, made, texts[start..], size, e) ==>
                  FailsWith(normalize, provider, calls, texts, size, e)
      invariant Faithful(normalize, provider, embedding) ==> Embedded(normalize, texts[..start], vectors, embedding)
    {
      var more;
      more, made, start := NextBatch(normalize, provider, made, texts, start, size, vectors, embedding);
      if more.Err? {
        return Err(more.error);
      }
      vectors := vectors + more.value;
    }
    assert texts[..start] == texts;
    return Ok(vectors);
  }

  lemma EmbeddingIsUnique(normalize: Normalize, texts: seq<string>, u: seq<Vector>, v: seq<Vector>,
                          embedding: string -> Raw)
    requires Embedded(normalize, texts, u, embedding) && Embedded(normalize, texts, v, embedding)
    ensures u == v
  {
    forall i | 0 <= i < |texts|
      ensures u[i] == v[i]
    {
      assert Some(u[i]) == Some(v[i]);
    }
  }

  /**
   With a provider that is right, two calls of `embed` whose answers are taken have the same result, whatever
   the sizes of their batches and the calls made before.
   */
  lemma AnySizeSameVectors(normalize: Normalize, provider: Provider, texts: seq<string>, embedding: string -> Raw,
                           calls1: nat, size1: nat, r1: Result<seq<Vector>>, calls2: nat, size2: nat, r2: Result<seq<Vector>>)
    requires size1 > 0 && size2 > 0 && Faithful(normalize, provider, embedding)
    requires IsResult(normalize, provider, calls1, texts, size1, embedding, r1)
    requires IsResult(normalize, provider, calls2, texts, size2, embedding, r2)
    requires AllAccepted(normalize, provider, calls1, texts, size1) && AllAccepted(normalize, provider, calls2, texts, size2)
    ensures r1.Ok? && r1 == r2
  {
    EmbeddingIsUnique(normalize, texts, r1.value, r2.value, embedding);
  }

  // ---------------------------------------------------------------- a right answer is taken

  /** Each number below |order| once. */
  predicate IsOrder(order: seq<nat>) {
    (forall i :: 0 <= i < |order| ==> order[i] < |order|) && forall i, j :: 0 <= i < j < |order| ==> order[i] != order[j]
  }

  /** The answer that brings the lists `raws` in any order at all. */
  function Shuffled(raws: seq<Raw>, order: seq<nat>): seq<Item>
    requires |raws| == |order| && IsOrder(order)
  {
    seq(|order|, i requires 0 <= i < |order| => Item(Some(order[i]), raws[order[i]]))
  }

  /** An answer with status 200 that has the embedding of every text is taken, whatever the order of its items. */
  lemma AnyOrderIsTaken(normalize: Normalize, raws: seq<Raw>, order: seq<nat>)
    requires |raws| == |order| && IsOrder(order)
    requires forall i :: 0 <= i < |raws| ==> normalize(raws[i]).Some?
    ensures Accepts(normalize, Answer(200, Some(Shuffled(raws, order))), |raws|)
  {
    var data := Shuffled(raws, order);
    forall i | 0 <= i < |data|
      ensures GoodItem(normalize, data[i], |raws|)
    {
      assert data[i] == Item(Some(order[i]), raws[order[i]]);
    }
    forall i, j | 0 <= i < j < |data|
      ensures data[i].index != data[j].index
    {
      assert data[i].index == Some(order[i] as int) && data[j].index == Some(order[j] as int);
    }
  }
}
