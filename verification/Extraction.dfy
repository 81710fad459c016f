/** The facts an extraction report may hold. */
module Extraction {
  import opened Common
  import opened Confidence
  import opened TripleStore

  datatype Fact =
    | IdentityFact(quote: string, confidence: Confidence, name: string, entityType: string,
                   properties: map<string, string>, identifiers: seq<string>)
    | RelationshipFact(quote: string, confidence: Confidence, subject: string, pred: string, obj: string)
    | PreferenceFact(quote: string, confidence: Confidence, subject: string, preference: string)
    | EventFact(quote: string, confidence: Confidence, name: string, eventDate: Option<Date>, description: string)
    | UpdateFact(quote: string, confidence: Confidence, subject: string, pred: string, newObject: string,
                 supersedes: Option<string>, effective: Option<Date>)
    | OpenQuestion(quote: string, confidence: Confidence, question: string, hypothesis: Option<string>)
  {
    /** `if fact.supersedes_object`: an empty string counts as none. */
    predicate Supersedes()
      requires UpdateFact?
    {
      supersedes.Some? && supersedes.value != ""
    }
  }
}
