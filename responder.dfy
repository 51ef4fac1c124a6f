/** Turning one utterance into a reply: the classifier predicts a tag, the
    intents are scanned in order for the first one carrying that tag, and one
    of its responses is picked at random. */
module Responder {
  import opened Corpus

  /** What `chatbot` produces for one utterance. `NoReply` is the implicit
      `None` returned when no intent carries the predicted tag;
      `EmptyResponses` is the error that picking from an empty response list
      raises. */
  datatype Reply = Said(text: string) | NoReply | EmptyResponses

  /** Index of the first intent whose tag equals `tag`, if any: the linear
      scan with an early return. */
  function FirstMatch(intents: seq<Intent>, tag: string): (r: Option<nat>)
    ensures r.Some? ==> r.value < |intents| && intents[r.value].tag == tag
    ensures r.Some? ==> forall j :: 0 <= j < r.value ==> intents[j].tag != tag
    ensures r.None? <==> forall j :: 0 <= j < |intents| ==> intents[j].tag != tag
  {
    if intents == [] then None
    else if intents[0].tag == tag then Some(0)
    else match FirstMatch(intents[1..], tag)
      case None => None
      case Some(i) => Some(i + 1)
  }

  /** The replies `chatbot` may give when the classifier predicts `tag`. */
  ghost predicate Permitted(intents: seq<Intent>, tag: string, r: Reply)
  {
    match FirstMatch(intents, tag)
    case None => r == NoReply
    case Some(i) =>
      if intents[i].responses == [] then r == EmptyResponses
      else r.Said? && r.text in intents[i].responses
  }

  /** `chatbot(input_text)`: classify, scan for the first matching intent and
      pick one of its responses. The pick is nondeterministic. */
  method Chatbot(intents: seq<Intent>, classify: string -> string, input: string) returns (r: Reply)
    ensures Permitted(intents, classify(input), r)
    ensures r.Said? ==> exists i :: 0 <= i < |intents| && intents[i].tag == classify(input) && r.text in intents[i].responses
  {
    var tag := classify(input);
    match FirstMatch(intents, tag)
    case None =>
      r := NoReply;
    case Some(i) =>
      var responses := intents[i].responses;
      if |responses| == 0 {
        r := EmptyResponses;
      } else {
        var k :| 0 <= k < |responses|;
        r := Said(responses[k]);
      }
  }

  /** An intent placed after one that already carries the tag is never
      consulted: whatever follows the first match does not change the result. */
  lemma {:induction false} LaterIntentsIgnored(front: seq<Intent>, x: Intent, rest: seq<Intent>)
    requires forall j :: 0 <= j < |front| ==> front[j].tag != x.tag
    ensures FirstMatch(front + [x] + rest, x.tag) == Some(|front|)
  {
    if front != [] {
      assert (front + [x] + rest)[1..] == front[1..] + [x] + rest;
      LaterIntentsIgnored(front[1..], x, rest);
    }
  }

  /** Intents that do not carry the tag only shift the result: the lookup in
      `front + rest` finds what the lookup in `rest` finds, |front| places on. */
  lemma {:induction false} SkipNonMatching(front: seq<Intent>, rest: seq<Intent>, tag: string)
    requires forall j :: 0 <= j < |front| ==> front[j].tag != tag
    ensures FirstMatch(front + rest, tag) ==
              match FirstMatch(rest, tag) case None => None case Some(i) => Some(|front| + i)
  {
    if front == [] {
      assert front + rest == rest;
    } else {
      assert (front + rest)[1..] == front[1..] + rest;
      SkipNonMatching(front[1..], rest, tag);
    }
  }

  /** The two-intent corpus of the system's documentation: once the
      classifier maps "hello" to "greeting" and "goodbye" to "bye", the only
      permitted replies are "Hey!" and "Goodbye!". */
  lemma GreetingExample(classify: string -> string, r1: Reply, r2: Reply)
    requires classify("hello") == "greeting" && classify("goodbye") == "bye"
    requires Permitted(SampleCorpus(), classify("hello"), r1)
    requires Permitted(SampleCorpus(), classify("goodbye"), r2)
    ensures r1 == Said("Hey!") && r2 == Said("Goodbye!")
  {
    var c := SampleCorpus();
    assert FirstMatch(c, "greeting") == Some(0);
    assert c[0].tag != "bye";
    assert FirstMatch(c, "bye") == Some(1);
  }

  function SampleCorpus(): seq<Intent>
  {
    [Intent("greeting", ["hi", "hello"], ["Hey!"]),
     Intent("bye", ["bye", "goodbye"], ["Goodbye!"])]
  }
}
