/** Batches of texts for the embedding provider, and putting its answers back in order. */
module EmbeddingBatches {
  import opened Wrappers

  datatype Config = Config(batchSize: nat, maxBatchChars: nat)
  {
    predicate Valid() {
      batchSize > 0 && maxBatchChars > 0
    }
  }

  function Flatten<T>(parts: seq<seq<T>>): seq<T> {
    if parts == [] then [] else Flatten(parts[..|parts| - 1]) + parts[|parts| - 1]
  }

  function Chars(texts: seq<string>): nat {
    if texts == [] then 0 else Chars(texts[..|texts| - 1]) + |texts[|texts| - 1]|
  }

  lemma {:induction false} CharsAppend(a: seq<string>, b: seq<string>)
    ensures Chars(a + b) == Chars(a) + Chars(b)
  {
    if b == [] {
      assert a + b == a;
    } else {
      assert (a + b)[..|a + b| - 1] == a + b[..|b| - 1];
      CharsAppend(a, b[..|b| - 1]);
    }
  }

  /** A batch within both bounds, or one single text however long. */
  predicate Allowed(batch: seq<string>, config: Config) {
    |batch| == 1 || (1 <= |batch| <= config.batchSize && Chars(batch) <= config.maxBatchChars)
  }

  /** Nonempty parts of an allowed batch are allowed. */
  lemma PartIsAllowed(batch: seq<string>, a: nat, b: nat, config: Config)
    requires Allowed(batch, config) && a < b <= |batch|
    ensures Allowed(batch[a..b], config)
  {
    hide Chars;
    assert batch == batch[..a] + (batch[a..b] + batch[b..]);
    CharsAppend(batch[..a], batch[a..b] + batch[b..]);
    CharsAppend(batch[a..b], batch[b..]);
  }

  /** Where batch `k` of a partition starts. */
  function Start<T>(parts: seq<seq<T>>, k: nat): nat
    requires k <= |parts|
  {
    |Flatten(parts[..k])|
  }

  lemma {:induction false} PartOfFlat<T>(parts: seq<seq<T>>, k: nat)
    requires k < |parts|
    ensures Start(parts, k + 1) == Start(parts, k) + |parts[k]| <= |Flatten(parts)|
    ensures Flatten(parts)[Start(parts, k)..Start(parts, k + 1)] == parts[k]
  {
    assert parts[..k + 1][..k] == parts[..k];
    assert Flatten(parts[..k + 1]) == Flatten(parts[..k]) + parts[k];
    FlatPrefix(parts, k + 1);
    assert Flatten(parts)[..Start(parts, k + 1)] == Flatten(parts[..k + 1]);
  }

  lemma {:induction false} FlatPrefix<T>(parts: seq<seq<T>>, k: nat)
    requires k <= |parts|
    ensures Flatten(parts[..k]) <= Flatten(parts)
  {
    if k == |parts| {
      assert parts[..k] == parts;
    } else {
      var front := parts[..|parts| - 1];
      FlatPrefix(front, k);
      assert front[..k] == parts[..k];
    }
  }

  /** Batch `k` could not have taken the next text as well. */
  predicate IsFull(batches: seq<seq<string>>, texts: seq<string>, config: Config, k: nat) {
    k < |batches| && (Start(batches, k + 1) < |texts| ==> !Allowed(batches[k] + [texts[Start(batches, k + 1)]], config))
  }

  /** No batch but the last could have taken the next text as well. */
  predicate Greedy(batches: seq<seq<string>>, texts: seq<string>, config: Config) {
    && Flatten(batches) <= texts
    && (forall k :: 0 <= k < |batches| ==> Allowed(batches[k], config))
    && forall k :: 0 <= k < |batches| ==> IsFull(batches, texts, config, k)
  }

  lemma StillFull(batches: seq<seq<string>>, texts: seq<string>, config: Config, k: nat, next: seq<string>)
    requires IsFull(batches, texts, config, k)
    ensures IsFull(batches + [next], texts, config, k)
  {
    assert (batches + [next])[..k + 1] == batches[..k + 1];
  }

  lemma BatchAdded(batches: seq<seq<string>>, texts: seq<string>, start: nat, index: nat, config: Config)
    requires start < index <= |texts| && Greedy(batches, texts, config) && Flatten(batches) == texts[..start]
    requires Allowed(texts[start..index], config)
    requires index < |texts| ==> !Allowed(texts[start..index] + [texts[index]], config)
    ensures Greedy(batches + [texts[start..index]], texts, config)
    ensures Flatten(batches + [texts[start..index]]) == texts[..index]
  {
    hide Allowed;
    var more := batches + [texts[start..index]];
    assert more[..|batches|] == batches && more[..|more|] == more;
    assert texts[..index] == texts[..start] + texts[start..index];
    forall k | 0 <= k < |batches|
      ensures IsFull(more, texts, config, k)
    {
      StillFull(batches, texts, config, k, texts[start..index]);
    }
    assert IsFull(more, texts, config, |batches|);
  }

  /** The loop: a batch ends before a text that would break a bound. */
  method Batches(texts: seq<string>, config: Config) returns (batches: seq<seq<string>>)
    requires config.Valid()
    ensures Flatten(batches) == texts && Greedy(batches, texts, config)
  {
    hide Allowed, Greedy, Flatten, Chars;
    batches := [];
    var start, chars := 0, 0;
    NoBatches(texts, config);
    for index := 0 to |texts|
      invariant 0 <= start <= index && (index > 0 ==> start < index)
      invariant Flatten(batches) == texts[..start] && Greedy(batches, texts, config)
      invariant chars == Chars(texts[start..index])
      invariant start < index ==> Allowed(texts[start..index], config)
    {
      var text := texts[index];
      var size := index - start;
      assert texts[start..index + 1] == texts[start..index] + [text];
      CharsAppend(texts[start..index], [text]);
      OneText(text);
      if size > 0 && (size >= config.batchSize || chars + |text| > config.maxBatchChars) {
        TooMuch(texts[start..index], text, config);
        BatchAdded(batches, texts, start, index, config);
        batches := batches + [texts[start..index]];
        start := index;
        chars := 0;
        assert texts[start..index + 1] == [text];
        SingleIsAllowed(text, config);
      } else {
        Fits(texts[start..index], text, config);
      }
      chars := chars + |text|;
    }
    if start < |texts| {
      BatchAdded(batches, texts, start, |texts|, config);
      assert texts[start..|texts|] == texts[start..];
      batches := batches + [texts[start..]];
    }
    assert texts[..|texts|] == texts;
  }

  lemma NoBatches(texts: seq<string>, config: Config)
    ensures Greedy([], texts, config) && Flatten<string>([]) == [] && Chars([]) == 0
  {
  }

  lemma OneText(text: string)
    ensures Chars([text]) == |text|
  {
    assert [text][..0] == [];
  }

  lemma SingleIsAllowed(text: string, config: Config)
    ensures Allowed([text], config)
  {
  }

  lemma TooMuch(batch: seq<string>, text: string, config: Config)
    requires batch != [] && (|batch| >= config.batchSize || Chars(batch) + |text| > config.maxBatchChars)
    ensures !Allowed(batch + [text], config)
  {
    CharsAppend(batch, [text]);
    OneText(text);
  }

  lemma Fits(batch: seq<string>, text: string, config: Config)
    requires batch == [] || (|batch| < config.batchSize && Chars(batch) + |text| <= config.maxBatchChars)
    ensures Allowed(batch + [text], config)
  {
    CharsAppend(batch, [text]);
    OneText(text);
  }

  // ------------------------------------------------------------------------ fewest batches

  lemma NextWasTooMuch(batches: seq<seq<string>>, texts: seq<string>, config: Config, k: nat)
    requires Greedy(batches, texts, config) && k < |batches| && Flatten(batches) == texts
    ensures Start(batches, k) < Start(batches, k + 1) <= |texts|
    ensures Start(batches, k + 1) < |texts| ==> !Allowed(texts[Start(batches, k)..Start(batches, k + 1) + 1], config)
  {
    hide Flatten, Allowed, Start;
    PartOfFlat(batches, k);
    AllowedIsNotEmpty(batches[k], config);
    assert IsFull(batches, texts, config, k);
    var from, to := Start(batches, k), Start(batches, k + 1);
    if to < |texts| {
      SliceSnoc(texts, from, to);
    }
  }

  lemma SliceSnoc(texts: seq<string>, from: nat, to: nat)
    requires from <= to < |texts|
    ensures texts[from..to + 1] == texts[from..to] + [texts[to]]
  {
  }

  lemma AllowedIsNotEmpty(batch: seq<string>, config: Config)
    requires Allowed(batch, config)
    ensures batch != []
  {
  }

  lemma AllowedInside(texts: seq<string>, base: nat, end: nat, from: nat, to: nat, config: Config)
    requires base <= from < to <= end <= |texts| && Allowed(texts[base..end], config)
    ensures Allowed(texts[from..to], config)
  {
    hide Allowed;
    PartIsAllowed(texts[base..end], from - base, to - base, config);
    assert texts[base..end][from - base..to - base] == texts[from..to];
  }

  /** Greedy batches are never behind those of any other allowed way to cut. */
  lemma {:induction false} GreedyStaysAhead(batches: seq<seq<string>>, other: seq<seq<string>>, texts: seq<string>,
                                            config: Config, k: nat)
    requires Greedy(batches, texts, config) && Flatten(batches) == texts == Flatten(other)
    requires (forall i :: 0 <= i < |other| ==> Allowed(other[i], config)) && k <= |batches| && k <= |other|
    ensures Start(batches, k) >= Start(other, k)
  {
    hide Allowed, Flatten, Greedy, Start;
    if k > 0 {
      GreedyStaysAhead(batches, other, texts, config, k - 1);
      NextWasTooMuch(batches, texts, config, k - 1);
      PartOfFlat(other, k - 1);
      var from, to, base, end := Start(batches, k - 1), Start(batches, k), Start(other, k - 1), Start(other, k);
      if to < end {
        AllowedInside(texts, base, end, from, to + 1, config);
      }
    } else {
      StartOfNone(batches);
      StartOfNone(other);
    }
  }

  lemma StartOfNone(parts: seq<seq<string>>)
    ensures Start(parts, 0) == 0
  {
  }

  /** No other contiguous way to cut the texts within the same rule needs fewer batches. */
  lemma FewestBatches(batches: seq<seq<string>>, other: seq<seq<string>>, texts: seq<string>, config: Config)
    requires Greedy(batches, texts, config) && Flatten(batches) == texts == Flatten(other)
    requires forall i :: 0 <= i < |other| ==> Allowed(other[i], config)
    ensures |batches| <= |other|
  {
    if |other| < |batches| {
      GreedyStaysAhead(batches, other, texts, config, |other|);
      assert other[..|other|] == other;
      PartOfFlat(batches, |other|);
    }
  }

  // ----------------------------------------------------------------------------- answers

  datatype Vector = Vector(dimensions: nat, id: nat)

  /** One item of a response: the provider may return them in any order. */
  datatype Item = Item(index: int, vector: Option<Vector>)

  datatype ResponseError =
    | IndexOutOfRange(index: int) | DuplicateIndex(index: int) | InvalidVector(index: int)
    | MissingIndices | InconsistentDimensions | EmptyText

  predicate SameDimensions(vectors: seq<Vector>) {
    forall i, j :: 0 <= i < |vectors| && 0 <= j < |vectors| ==> vectors[i].dimensions == vectors[j].dimensions
  }

  predicate HasIndex(items: seq<Item>, n: int) {
    exists i :: 0 <= i < |items| && items[i].index == n
  }

  /** A response with each index once, valid vectors, and one dimension. */
  ghost predicate Answers(items: seq<Item>, vectors: seq<Vector>) {
    && (forall i :: 0 <= i < |items| ==>
          0 <= items[i].index < |vectors| && items[i].vector == Some(vectors[items[i].index]))
    && (forall i, j :: 0 <= i < j < |items| ==> items[i].index != items[j].index)
    && (forall n :: 0 <= n < |vectors| ==> HasIndex(items, n))
    && SameDimensions(vectors)
  }

  /** The vectors of a response by index; each index is in range and comes once. */
  ghost predicate Indexed(items: seq<Item>, byIndex: map<int, Vector>, count: nat) {
    && (forall n :: n in byIndex <==> HasIndex(items, n))
    && (forall i :: 0 <= i < |items| ==>
          0 <= items[i].index < count && items[i].index in byIndex && items[i].vector == Some(byIndex[items[i].index]))
    && forall i, j :: 0 <= i < j < |items| ==> items[i].index != items[j].index
  }

  method IndexItems(items: seq<Item>, count: nat) returns (r: Result<map<int, Vector>, ResponseError>)
    ensures r.Success? ==> Indexed(items, r.value, count)
    ensures r.Failure? ==> r.error != EmptyText
    ensures r.Failure? ==> forall vectors :: |vectors| == count ==> !Answers(items, vectors)
  {
    var byIndex: map<int, Vector> := map[];
    for k := 0 to |items|
      invariant Indexed(items[..k], byIndex, count)
    {
      var item := items[k];
      assert items[..k + 1] == items[..k] + [item];
      if item.index < 0 || item.index >= count {
        return Failure(IndexOutOfRange(item.index));
      }
      if item.index in byIndex {
        return Failure(DuplicateIndex(item.index));
      }
      if item.vector.None? {
        return Failure(InvalidVector(item.index));
      }
      ItemIndexed(items[..k], byIndex, count, item);
      byIndex := byIndex[item.index := item.vector.value];
    }
    assert items[..|items|] == items;
    r := Success(byIndex);
  }

  lemma ItemIndexed(items: seq<Item>, byIndex: map<int, Vector>, count: nat, item: Item)
    requires Indexed(items, byIndex, count) && 0 <= item.index < count && item.index !in byIndex && item.vector.Some?
    ensures Indexed(items + [item], byIndex[item.index := item.vector.value], count)
  {
    var more := items + [item];
    var next := byIndex[item.index := item.vector.value];
    forall n
      ensures n in next <==> HasIndex(more, n)
    {
      HasIndexSnoc(items, item, n);
    }
  }

  lemma HasIndexSnoc(items: seq<Item>, item: Item, n: int)
    ensures HasIndex(items + [item], n) <==> HasIndex(items, n) || item.index == n
  {
    var more := items + [item];
    assert more[|items|] == item;
    if HasIndex(items, n) {
      var i :| 0 <= i < |items| && items[i].index == n;
      assert more[i] == items[i];
    }
  }

  /** The provider's vectors in the order of the texts, or an error when it did not answer them. */
  method NormalizeResponse(items: seq<Item>, expectedCount: nat) returns (r: Result<seq<Vector>, ResponseError>)
    ensures r.Success? ==> |r.value| == expectedCount && Answers(items, r.value)
    ensures r.Failure? ==> r.error != EmptyText
    ensures r.Failure? ==> forall vectors :: |vectors| == expectedCount ==> !Answers(items, vectors)
  {
    hide Answers, Indexed;
    var indexed := IndexItems(items, expectedCount);
    if indexed.Failure? {
      return Failure(indexed.error);
    }
    var ordered: seq<Vector> := [];
    for n := 0 to expectedCount
      invariant |ordered| == n && forall i :: 0 <= i < n ==> i in indexed.value && ordered[i] == indexed.value[i]
    {
      if n !in indexed.value {
        forall vectors | |vectors| == expectedCount
          ensures !Answers(items, vectors)
        {
          NotAnswered(items, vectors, indexed.value, n);
        }
        return Failure(MissingIndices);
      }
      ordered := ordered + [indexed.value[n]];
    }
    for n := 0 to expectedCount
      invariant forall i :: 0 <= i < n ==> ordered[i].dimensions == ordered[0].dimensions
    {
      if ordered[n].dimensions != ordered[0].dimensions {
        forall vectors | |vectors| == expectedCount
          ensures !Answers(items, vectors)
        {
          NotOneDimension(items, vectors, indexed.value, n);
        }
        return Failure(InconsistentDimensions);
      }
    }
    OrderedAnswers(items, ordered, indexed.value);
    r := Success(ordered);
  }

  lemma NotAnswered(items: seq<Item>, vectors: seq<Vector>, byIndex: map<int, Vector>, n: nat)
    requires Indexed(items, byIndex, |vectors|) && n < |vectors| && n !in byIndex
    ensures !Answers(items, vectors)
  {
  }

  lemma NotOneDimension(items: seq<Item>, vectors: seq<Vector>, byIndex: map<int, Vector>, n: nat)
    requires Indexed(items, byIndex, |vectors|) && n < |vectors| && n in byIndex && 0 in byIndex
    requires byIndex[n].dimensions != byIndex[0].dimensions
    ensures !Answers(items, vectors)
  {
    assert HasIndex(items, n) && HasIndex(items, 0);
    var i :| 0 <= i < |items| && items[i].index == n;
    var j :| 0 <= j < |items| && items[j].index == 0;
  }

  lemma OrderedAnswers(items: seq<Item>, vectors: seq<Vector>, byIndex: map<int, Vector>)
    requires Indexed(items, byIndex, |vectors|)
    requires forall i :: 0 <= i < |vectors| ==> i in byIndex && vectors[i] == byIndex[i]
    requires forall i :: 0 <= i < |vectors| ==> vectors[i].dimensions == vectors[0].dimensions
    ensures Answers(items, vectors)
  {
  }

  /** An answer does not depend on the order of the response: there is only one. */
  lemma AnswerIsUnique(items: seq<Item>, shuffled: seq<Item>, a: seq<Vector>, b: seq<Vector>)
    requires Answers(items, a) && Answers(shuffled, b) && |a| == |b| && multiset(items) == multiset(shuffled)
    ensures a == b
  {
    forall n | 0 <= n < |a|
      ensures a[n] == b[n]
    {
      assert HasIndex(items, n);
      var i :| 0 <= i < |items| && items[i].index == n;
      assert items[i] in multiset(shuffled);
      var j :| 0 <= j < |shuffled| && shuffled[j] == items[i];
    }
  }

  // ----------------------------------------------------------------------------- all texts

  /** The vectors of each batch are the provider's answer to it, in the place of its texts. */
  ghost predicate Embedded(vectors: seq<Vector>, batches: seq<seq<string>>, provider: seq<string> -> seq<Item>) {
    && |vectors| == |Flatten(batches)|
    && forall k :: 0 <= k < |batches| ==> AnsweredInPlace(vectors, batches, k, provider)
  }

  ghost predicate AnsweredInPlace(vectors: seq<Vector>, batches: seq<seq<string>>, k: nat,
                                  provider: seq<string> -> seq<Item>) {
    && k < |batches| && Start(batches, k) + |batches[k]| <= |vectors|
    && Answers(provider(batches[k]), vectors[Start(batches, k)..Start(batches, k) + |batches[k]|])
  }

  lemma AnswerAdded(vectors: seq<Vector>, batches: seq<seq<string>>, provider: seq<string> -> seq<Item>,
                    batch: seq<string>, answer: seq<Vector>)
    requires Embedded(vectors, batches, provider) && |answer| == |batch| && Answers(provider(batch), answer)
    ensures Embedded(vectors + answer, batches + [batch], provider)
  {
    hide Answers;
    var all, more := vectors + answer, batches + [batch];
    assert more[..|batches|] == batches;
    forall k | 0 <= k < |batches|
      ensures AnsweredInPlace(all, more, k, provider)
    {
      assert AnsweredInPlace(vectors, batches, k, provider);
      assert more[..k] == batches[..k];
      var from := Start(batches, k);
      assert all[from..from + |batches[k]|] == vectors[from..from + |batches[k]|];
    }
    assert all[|vectors|..|all|] == answer;
    assert AnsweredInPlace(all, more, |batches|, provider);
  }

  lemma EmbeddedFront(vectors: seq<Vector>, batches: seq<seq<string>>, provider: seq<string> -> seq<Item>)
    requires Embedded(vectors, batches, provider) && batches != []
    ensures var last := |batches| - 1;
            var n := Start(batches, last);
            && n + |batches[last]| == |vectors|
            && Embedded(vectors[..n], batches[..last], provider) && Answers(provider(batches[last]), vectors[n..])
  {
    hide Answers;
    var last := |batches| - 1;
    var front, n := batches[..last], Start(batches, last);
    assert AnsweredInPlace(vectors, batches, last, provider);
    assert vectors[n..n + |batches[last]|] == vectors[n..];
    forall k | 0 <= k < last
      ensures AnsweredInPlace(vectors[..n], front, k, provider)
    {
      assert AnsweredInPlace(vectors, batches, k, provider);
      assert front[..k] == batches[..k];
      PartOfFlat(front, k);
      var from := Start(batches, k);
      assert vectors[..n][from..from + |batches[k]|] == vectors[from..from + |batches[k]|];
    }
  }

  /** The provider's answers leave one list of vectors at most. */
  lemma {:induction false} EmbeddedIsUnique(a: seq<Vector>, b: seq<Vector>, batches: seq<seq<string>>,
                                            provider: seq<string> -> seq<Item>)
    requires Embedded(a, batches, provider) && Embedded(b, batches, provider)
    ensures a == b
    decreases |batches|
  {
    hide Answers, Embedded;
    EmbeddedLength(a, batches, provider);
    EmbeddedLength(b, batches, provider);
    if batches != [] {
      var last := |batches| - 1;
      var n := Start(batches, last);
      EmbeddedFront(a, batches, provider);
      EmbeddedFront(b, batches, provider);
      EmbeddedIsUnique(a[..n], b[..n], batches[..last], provider);
      var items := provider(batches[last]);
      AnswerIsUnique(items, items, a[n..], b[n..]);
      assert a == a[..n] + a[n..] && b == b[..n] + b[n..];
    }
  }

  /** The provider answered every batch, and with vectors of one dimension throughout. */
  ghost predicate Embeddable(batches: seq<seq<string>>, provider: seq<string> -> seq<Item>) {
    exists vectors :: Embedded(vectors, batches, provider) && SameDimensions(vectors)
  }

  lemma UnansweredBatch(batches: seq<seq<string>>, k: nat, provider: seq<string> -> seq<Item>)
    requires k < |batches|
    requires forall vectors :: |vectors| == |batches[k]| ==> !Answers(provider(batches[k]), vectors)
    ensures !Embeddable(batches, provider)
  {
    hide Answers, Embedded;
    forall vectors | Embedded(vectors, batches, provider)
      ensures false
    {
      var answer := BatchAnswer(vectors, batches, k, provider);
    }
  }

  lemma BatchAnswer(vectors: seq<Vector>, batches: seq<seq<string>>, k: nat, provider: seq<string> -> seq<Item>)
    returns (answer: seq<Vector>)
    requires Embedded(vectors, batches, provider) && k < |batches|
    ensures |answer| == |batches[k]| && Answers(provider(batches[k]), answer)
  {
    hide Answers;
    assert AnsweredInPlace(vectors, batches, k, provider);
    answer := vectors[Start(batches, k)..Start(batches, k) + |batches[k]|];
  }

  lemma UnequalDimensions(vectors: seq<Vector>, batches: seq<seq<string>>, provider: seq<string> -> seq<Item>)
    requires Embedded(vectors, batches, provider) && !SameDimensions(vectors)
    ensures !Embeddable(batches, provider)
  {
    hide Embedded, SameDimensions;
    forall other | Embedded(other, batches, provider)
      ensures !SameDimensions(other)
    {
      EmbeddedIsUnique(vectors, other, batches, provider);
    }
  }

  /** One vector a text, in order, whatever order the provider answers in; or a failure, exactly when
      a text is empty or the answers leave no such list of vectors. */
  method EmbedTexts(texts: seq<string>, config: Config, provider: seq<string> -> seq<Item>)
    returns (r: Result<seq<Vector>, ResponseError>, batches: seq<seq<string>>)
    requires config.Valid()
    ensures r == Failure(EmptyText) <==> "" in texts
    ensures "" !in texts ==> Flatten(batches) == texts && Greedy(batches, texts, config)
    ensures r.Success? <==> "" !in texts && Embeddable(batches, provider)
    ensures r.Success? ==>
              |r.value| == |texts| && Embedded(r.value, batches, provider) && SameDimensions(r.value)
  {
    hide Allowed, Greedy, Flatten, Answers, AnsweredInPlace, Embedded, Embeddable;
    batches := [];
    if "" in texts {
      r := Failure(EmptyText);
      return;
    }
    batches := Batches(texts, config);
    var vectors: seq<Vector> := [];
    NothingEmbedded(provider);
    assert batches[..0] == [] && batches[..|batches|] == batches;
    for k := 0 to |batches|
      invariant Embedded(vectors, batches[..k], provider)
    {
      var answer := NormalizeResponse(provider(batches[k]), |batches[k]|);
      if answer.Failure? {
        UnansweredBatch(batches, k, provider);
        r := Failure(answer.error);
        return;
      }
      AnswerAdded(vectors, batches[..k], provider, batches[k], answer.value);
      assert batches[..k + 1] == batches[..k] + [batches[k]];
      vectors := vectors + answer.value;
    }
    EmbeddedLength(vectors, batches, provider);
    for n := 0 to |vectors|
      invariant forall i :: 0 <= i < n ==> vectors[i].dimensions == vectors[0].dimensions
    {
      if vectors[n].dimensions != vectors[0].dimensions {
        UnequalDimensions(vectors, batches, provider);
        r := Failure(InconsistentDimensions);
        return;
      }
    }
    FoundEmbedding(vectors, batches, provider);
    r := Success(vectors);
  }

  lemma FoundEmbedding(vectors: seq<Vector>, batches: seq<seq<string>>, provider: seq<string> -> seq<Item>)
    requires Embedded(vectors, batches, provider) && SameDimensions(vectors)
    ensures Embeddable(batches, provider)
  {
  }

  lemma NothingEmbedded(provider: seq<string> -> seq<Item>)
    ensures Embedded([], [], provider)
  {
  }

  lemma EmbeddedLength(vectors: seq<Vector>, batches: seq<seq<string>>, provider: seq<string> -> seq<Item>)
    requires Embedded(vectors, batches, provider)
    ensures |vectors| == |Flatten(batches)|
  {
  }
}
