/** The life of an apply job. */
module Jobs {
  datatype Status = Queued | Validating | Applying | Applied | Failed | RolledBack
  datatype Target = CoreDns | Nginx | Combined | Certificate

  /** The transition table. */
  predicate Allowed(current: Status, next: Status) {
    match current
    case Queued => next == Validating
    case Validating => next == Applying || next == Failed
    case Applying => next == Applied || next == Failed || next == RolledBack
    case Applied => false
    case Failed => next == Queued
    case RolledBack => next == Queued
  }

  predicate Running(s: Status) {
    s == Validating || s == Applying
  }

  predicate Unfinished(s: Status) {
    s == Queued || Running(s)
  }

  predicate Settled(s: Status) {
    s == Applied || s == Failed || s == RolledBack
  }
}
