// The lines of the moderation function's log group that the review queue
// reads: its own rejections and the operator's reviews
// (internal/moderation/reviews.go, internal/moderation/rejections.go).
module ReviewLog {
  datatype Action = Upheld | Approved | Rejected

  datatype Review = Review(time: int, key: string, action: Action, reason: string)

  datatype Label = Label(name: string, confidence: real)

  datatype LogLine =
    | DecisionLine(time: int, key: string, reason: string, labels: seq<Label>)
    | ReviewLine(review: Review)
  {
    function Key(): string {
      if DecisionLine? then key else review.key
    }
  }
}
