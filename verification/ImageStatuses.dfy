// internal/repository/image_status.go: where an uploaded image stands in moderation.
module ImageStatuses {
  // Unset is the empty status of an image stored before moderation existed.
  datatype ImageStatus = Unset | Pending | Approved | Rejected {
    function Effective(): ImageStatus {
      if Unset? then Approved else this
    }
  }
}
