/** Telegram delivery rows: the guarded status updates and the send-and-settle sequence. */
module Delivery {
  import opened Wire

  type DeliveryId = nat

  datatype Status = Pending | Sending | Sent | RetryPending | Unknown | Failed

  /** What one call to the Telegram API came to, as the caller saw it. */
  datatype Answer =
    | Delivered        // a result with a message id
    | RateLimited      // status or error code 429
    | ApiError         // any other error reported by the API
    | Doubtful         // request failed, unreadable body, or a result without a message id

  datatype Mark = ToSending | ToSent | ToRetry | ToFailed | ToUnknown | ToUnsettled

  /** The WHERE clause of each UPDATE. */
  predicate Guard(m: Mark, s: Status) {
    match m
    case ToSending => s.Pending? || s.RetryPending?
    case ToUnsettled => s.Sending? || s.Sent?
    case _ => s.Sending?
  }

  function Target(m: Mark): Status {
    match m
    case ToSending => Sending
    case ToSent => Sent
    case ToRetry => RetryPending
    case ToFailed => Failed
    case ToUnknown | ToUnsettled => Unknown
  }

  predicate Fires(rows: map<DeliveryId, Status>, id: DeliveryId, m: Mark) { id in rows && Guard(m, rows[id]) }

  function Marked(rows: map<DeliveryId, Status>, id: DeliveryId, m: Mark): map<DeliveryId, Status> {
    if Fires(rows, id, m) then rows[id := Target(m)] else rows
  }

  /** How each answer other than a delivery is settled. */
  function MarkFor(a: Answer): Mark {
    match a
    case RateLimited => ToRetry
    case ApiError => ToFailed
    case Doubtful => ToUnknown
    case Delivered => ToSent
  }

  /** The status a whole attempt leaves on a row it claimed; `recorded` is the turn ledger's verdict. */
  predicate SettledAs(answer: Answer, recorded: bool, status: Status) {
    && (answer.Delivered? && recorded ==> status == Sent)
    && (answer.Delivered? && !recorded ==> status == Unknown)
    && (answer.RateLimited? ==> status == RetryPending)
    && (answer.ApiError? ==> status == Failed)
    && (answer.Doubtful? ==> status == Unknown)
  }

  datatype SendResult = Stale | Confirmed | Reported(answer: Answer) | CommitStateUnknown

  class Ledger {
    var rows: map<DeliveryId, Status>
    var nextId: DeliveryId

    ghost predicate Valid()
      reads this
    {
      forall id :: id in rows ==> id < nextId
    }

    constructor ()
      ensures Valid() && rows == map[]
    {
      rows, nextId := map[], 0;
    }

    /** `create_delivery` */
    method Create() returns (id: DeliveryId)
      requires Valid()
      modifies this
      ensures Valid() && id !in old(rows) && rows == old(rows)[id := Pending]
    {
      id := nextId;
      rows, nextId := rows[id := Pending], nextId + 1;
    }

    /** Any of the UPDATE statements; `changed` is rows_affected() == 1. */
    method Update(id: DeliveryId, m: Mark) returns (changed: bool)
      modifies `rows
      ensures changed == Fires(old(rows), id, m) && rows == Marked(old(rows), id, m)
    {
      changed := id in rows && Guard(m, rows[id]);
      if changed {
        rows := rows[id := Target(m)];
      }
    }

    /** `retry_pending_reply`, and the tail of a first send: claim, call, settle. */
    method Attempt(id: DeliveryId, answer: Answer, recorded: bool) returns (r: SendResult)
      modifies `rows
      ensures r.Stale? <==> id !in old(rows) || (old(rows)[id] != Pending && old(rows)[id] != RetryPending)
      ensures r.Stale? ==> rows == old(rows)
      ensures !r.Stale? ==> id in rows && SettledAs(answer, recorded, rows[id]) && rows == old(rows)[id := rows[id]]
      ensures r.Confirmed? <==> !r.Stale? && answer.Delivered? && recorded
      ensures r.CommitStateUnknown? <==> !r.Stale? && answer.Delivered? && !recorded
      ensures r.Reported? ==> r.answer == answer
    {
      var claimed := Update(id, ToSending);
      if !claimed {
        return Stale;
      }
      match answer {
        case Delivered =>
          var confirmed := false;
          if recorded {
            confirmed := Update(id, ToSent);
          }
          if confirmed {
            return Confirmed;
          }
          var _ := Update(id, ToUnsettled);
          return CommitStateUnknown;
        case RateLimited =>
          var _ := Update(id, ToRetry);
        case Doubtful =>
          var _ := Update(id, ToUnknown);
        case ApiError =>
          var _ := Update(id, ToFailed);
      }
      r := Reported(answer);
    }

    /** `send_single_reply_result` and its scoped variant. */
    method SendSingle(answer: Answer, recorded: bool) returns (id: DeliveryId, r: SendResult)
      requires Valid()
      modifies this
      ensures Valid() && id !in old(rows) && !r.Stale?
      ensures id in rows && SettledAs(answer, recorded, rows[id]) && rows == old(rows)[id := rows[id]]
      ensures r.Confirmed? <==> answer.Delivered? && recorded
      ensures r.CommitStateUnknown? <==> answer.Delivered? && !recorded
      ensures r.Reported? ==> r.answer == answer
    {
      id := Create();
      r := Attempt(id, answer, recorded);
    }
  }
}
