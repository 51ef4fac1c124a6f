/** Flattening the intent corpus into the two parallel training lists
    (pattern texts and their tags) that the vectorizer and the classifier
    are fitted on. */
module Training {
  import opened Corpus

  /** Number of patterns in the whole corpus. */
  function PatternCount(intents: seq<Intent>): nat
  {
    if intents == [] then 0
    else PatternCount(intents[..|intents| - 1]) + |intents[|intents| - 1].patterns|
  }

  /** The pattern list: every intent's patterns, in corpus order. */
  function PatternsOf(intents: seq<Intent>): (r: seq<string>)
    ensures |r| == PatternCount(intents)
  {
    if intents == [] then []
    else PatternsOf(intents[..|intents| - 1]) + intents[|intents| - 1].patterns
  }

  /** `n` copies of `t`. */
  function Repeat(t: string, n: nat): (r: seq<string>)
    ensures |r| == n
    ensures forall i :: 0 <= i < n ==> r[i] == t
  {
    if n == 0 then [] else Repeat(t, n - 1) + [t]
  }

  /** The tag list: one copy of an intent's tag per pattern of that intent. */
  function TagsOf(intents: seq<Intent>): (r: seq<string>)
    ensures |r| == PatternCount(intents)
  {
    if intents == [] then []
    else TagsOf(intents[..|intents| - 1]) + Repeat(intents[|intents| - 1].tag, |intents[|intents| - 1].patterns|)
  }

  /** The nested loop that builds the training lists: for each intent, for each
      of its patterns, append the intent's tag to `tags` and the pattern to
      `patterns`. */
  method BuildTrainingSet(intents: seq<Intent>) returns (patterns: seq<string>, tags: seq<string>)
    ensures patterns == PatternsOf(intents) && tags == TagsOf(intents)
    ensures |patterns| == |tags| == PatternCount(intents)
  {
    tags, patterns := [], [];
    var i := 0;
    while i < |intents|
      invariant 0 <= i <= |intents|
      invariant patterns == PatternsOf(intents[..i])
      invariant tags == TagsOf(intents[..i])
    {
      var intent := intents[i];
      var k := 0;
      while k < |intent.patterns|
        invariant 0 <= k <= |intent.patterns|
        invariant patterns == PatternsOf(intents[..i]) + intent.patterns[..k]
        invariant tags == TagsOf(intents[..i]) + Repeat(intent.tag, k)
      {
        tags := tags + [intent.tag];
        patterns := patterns + [intent.patterns[k]];
        k := k + 1;
      }
      assert intents[..i + 1][..i] == intents[..i];
      assert intent.patterns[..k] == intent.patterns;
      i := i + 1;
    }
    assert intents[..i] == intents;
  }

  /** Pattern `k` of intent `j` lands at offset PatternCount(intents[..j]) + k
      of the pattern list, and the tag list holds intent `j`'s tag there. */
  lemma {:induction false} FlattenAt(intents: seq<Intent>, j: nat, k: nat)
    requires j < |intents| && k < |intents[j].patterns|
    ensures PatternCount(intents[..j]) + k < PatternCount(intents)
    ensures PatternsOf(intents)[PatternCount(intents[..j]) + k] == intents[j].patterns[k]
    ensures TagsOf(intents)[PatternCount(intents[..j]) + k] == intents[j].tag
  {
    var n := |intents| - 1;
    var init := intents[..n];
    if j == n {
      assert intents[..j] == init;
    } else {
      assert init[..j] == intents[..j];
      FlattenAt(init, j, k);
    }
  }

  /** Every entry of the training lists comes from some intent: the pattern is
      one of that intent's patterns and the tag is that intent's tag. */
  lemma {:induction false} FlattenOrigin(intents: seq<Intent>, i: nat)
    requires i < PatternCount(intents)
    ensures exists j, k :: 0 <= j < |intents| && 0 <= k < |intents[j].patterns| &&
              PatternsOf(intents)[i] == intents[j].patterns[k] && TagsOf(intents)[i] == intents[j].tag
  {
    var n := |intents| - 1;
    var init := intents[..n];
    if i < PatternCount(init) {
      FlattenOrigin(init, i);
      var j, k :| 0 <= j < |init| && 0 <= k < |init[j].patterns| &&
                  PatternsOf(init)[i] == init[j].patterns[k] && TagsOf(init)[i] == init[j].tag;
      assert PatternsOf(intents)[i] == intents[j].patterns[k];
      assert TagsOf(intents)[i] == intents[j].tag;
    } else {
      var k := i - PatternCount(init);
      assert PatternsOf(intents)[i] == intents[n].patterns[k];
      assert TagsOf(intents)[i] == intents[n].tag;
    }
  }

  /** Flattening distributes over concatenation of corpora, so the training
      lists of a corpus are the per-intent blocks laid end to end. */
  lemma {:induction false} FlattenAppend(a: seq<Intent>, b: seq<Intent>)
    ensures PatternsOf(a + b) == PatternsOf(a) + PatternsOf(b)
    ensures TagsOf(a + b) == TagsOf(a) + TagsOf(b)
    ensures PatternCount(a + b) == PatternCount(a) + PatternCount(b)
    decreases |b|
  {
    if b == [] {
      assert a + b == a;
    } else {
      var n := |b| - 1;
      var c := a + b;
      assert c[..|c| - 1] == a + b[..n];
      assert c[|c| - 1] == b[n];
      FlattenAppend(a, b[..n]);
      calc {
        PatternsOf(c);
        PatternsOf(a + b[..n]) + b[n].patterns;
        PatternsOf(a) + (PatternsOf(b[..n]) + b[n].patterns);
      }
      calc {
        TagsOf(c);
        TagsOf(a + b[..n]) + Repeat(b[n].tag, |b[n].patterns|);
        TagsOf(a) + (TagsOf(b[..n]) + Repeat(b[n].tag, |b[n].patterns|));
      }
    }
  }
}
