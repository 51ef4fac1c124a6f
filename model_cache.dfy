/** The start-up decision between loading the two persisted artifacts (the
    fitted vectorizer and the trained classifier) and training both afresh.
    The artifacts' contents are opaque: fitting is given as two functions, and
    the store records only which artifact files exist and what they hold. */
module ModelCache {
  import opened Corpus
  import opened Training

  /** The fitted vectorizer and classifier every turn is answered with. */
  datatype InferenceContext<V, M> = InferenceContext(vectorizer: V, classifier: M)

  /** The two artifact files: `None` when a file does not exist. */
  class ArtifactStore<V, M> {
    var vectorizer: Option<V>
    var model: Option<M>

    constructor (vectorizer: Option<V>, model: Option<M>)
      ensures this.vectorizer == vectorizer && this.model == model
    {
      this.vectorizer := vectorizer;
      this.model := model;
    }
  }

  /** Load both artifacts when both files exist; otherwise build the training
      lists, fit the vectorizer on the patterns, fit the classifier on the
      vectorized patterns and their tags, and save both. */
  method LoadOrTrain<V, M>(store: ArtifactStore<V, M>, intents: seq<Intent>,
                           fitVectorizer: seq<string> -> V,
                           fitClassifier: (V, seq<string>, seq<string>) -> M)
    returns (ctx: InferenceContext<V, M>, trained: bool)
    modifies store
    ensures trained <==> old(store.model).None? || old(store.vectorizer).None?
    ensures store.vectorizer == Some(ctx.vectorizer) && store.model == Some(ctx.classifier)
    ensures !trained ==> unchanged(store)
    ensures trained ==> ctx.vectorizer == fitVectorizer(PatternsOf(intents))
    ensures trained ==> ctx.classifier == fitClassifier(ctx.vectorizer, PatternsOf(intents), TagsOf(intents))
  {
    if store.model.Some? && store.vectorizer.Some? {
      ctx := InferenceContext(store.vectorizer.value, store.model.value);
      trained := false;
    } else {
      var patterns, tags := BuildTrainingSet(intents);
      var vectorizer := fitVectorizer(patterns);
      var classifier := fitClassifier(vectorizer, patterns, tags);
      store.model := Some(classifier);
      store.vectorizer := Some(vectorizer);
      ctx := InferenceContext(vectorizer, classifier);
      trained := true;
    }
  }
}
