/** The intent corpus: the list of intents read once from the corpus document
    and never changed afterwards. */
module Corpus {

  /** Absent-or-present value, used for lookups that may find nothing. */
  datatype Option<+T> = None | Some(value: T)

  /** One conversational intent: its tag, example phrases and candidate replies. */
  datatype Intent = Intent(tag: string, patterns: seq<string>, responses: seq<string>)
}
