/**
  The `DeliveryStatus` enumeration: six constants, each carrying a display name,
  and the lookup from a display name back to its constant.
 */
module DeliveryStatuses {
  import opened Wrappers

  datatype DeliveryStatus = InTransit | Delivered | OutForDelivery | Pending | Returned | Lost

  /** The constants in declaration order, as `values()` lists them. */
  const AllStatuses: seq<DeliveryStatus> :=
    [InTransit, Delivered, OutForDelivery, Pending, Returned, Lost]

  /** The constant's identifier: the text stored in the status column and matched by search filters. */
  function EnumName(d: DeliveryStatus): string {
    match d
    case InTransit => "IN_TRANSIT"
    case Delivered => "DELIVERED"
    case OutForDelivery => "OUT_FOR_DELIVERY"
    case Pending => "PENDING"
    case Returned => "RETURNED"
    case Lost => "LOST"
  }

  /** The human-readable display name the constant is declared with. */
  function StatusName(d: DeliveryStatus): string {
    match d
    case InTransit => "In Transit"
    case Delivered => "Delivered"
    case OutForDelivery => "Out for Delivery"
    case Pending => "Pending"
    case Returned => "Returned"
    case Lost => "Lost"
  }

  const InvalidStatusPrefix: string := "Invalid delivery status: "

  lemma AllStatusesComplete(d: DeliveryStatus)
    ensures d in AllStatuses
  {
    match d
    case InTransit =>
    case Delivered =>
    case OutForDelivery =>
    case Pending =>
    case Returned =>
    case Lost =>
  }

  /** No two constants share a display name, so the lookup below is a true inverse. */
  lemma StatusNamesDistinct(d1: DeliveryStatus, d2: DeliveryStatus)
    ensures StatusName(d1) == StatusName(d2) ==> d1 == d2
  {
    if StatusName(d1) == StatusName(d2) {
      match d1
      case InTransit => assert StatusName(d1)[0] == 'I';
      case Delivered => assert StatusName(d1)[0] == 'D';
      case OutForDelivery => assert StatusName(d1)[0] == 'O';
      case Pending => assert StatusName(d1)[0] == 'P';
      case Returned => assert StatusName(d1)[0] == 'R';
      case Lost => assert StatusName(d1)[0] == 'L';
    }
  }

  /** First constant of `values` (scanned in order) whose display name equals `s` exactly. */
  function FindByStatusName(values: seq<DeliveryStatus>, s: string): (r: Option<DeliveryStatus>)
    ensures r.Some? ==> r.value in values && StatusName(r.value) == s
    ensures r.None? ==> forall d :: d in values ==> StatusName(d) != s
  {
    if |values| == 0 then None
    else if StatusName(values[0]) == s then Some(values[0])
    else FindByStatusName(values[1..], s)
  }

  /**
    `convertToDeliveryStatus`: the constant whose display name is exactly `s`
    (case-sensitive), or the `IllegalArgumentException` it throws otherwise.
   */
  function ConvertToDeliveryStatus(s: string): (r: Result<DeliveryStatus, string>)
    ensures r.Success? <==> exists d :: StatusName(d) == s
    ensures r.Success? ==> StatusName(r.value) == s
    ensures r.Failure? ==> r.error == InvalidStatusPrefix + s
  {
    match FindByStatusName(AllStatuses, s)
    case Some(d) => Success(d)
    case None =>
      assert forall d :: StatusName(d) != s by {
        forall d ensures StatusName(d) != s {
          AllStatusesComplete(d);
        }
      }
      Failure(InvalidStatusPrefix + s)
  }

  /** Every constant is recovered from its own display name. */
  lemma ConvertRoundTrip(d: DeliveryStatus)
    ensures ConvertToDeliveryStatus(StatusName(d)) == Success(d)
  {
    var r := ConvertToDeliveryStatus(StatusName(d));
    StatusNamesDistinct(r.value, d);
  }

  /** The first two characters of the display names. */
  lemma LeadingChars(d: DeliveryStatus)
    ensures |StatusName(d)| >= 2
    ensures StatusName(d)[0] in {'I', 'D', 'O', 'P', 'R', 'L'}
    ensures StatusName(d)[1] in {'n', 'e', 'u', 'o'}
  {
  }

  /** A string that differs from every display name in its second character is rejected. */
  lemma RejectedBySecondChar(s: string)
    requires |s| >= 2 && s[1] !in {'n', 'e', 'u', 'o'}
    ensures ConvertToDeliveryStatus(s) == Failure(InvalidStatusPrefix + s)
  {
    forall d ensures StatusName(d) != s {
      LeadingChars(d);
    }
  }

  /** A string that differs from every display name in its first character is rejected. */
  lemma RejectedByFirstChar(s: string)
    requires |s| >= 1 && s[0] !in {'I', 'D', 'O', 'P', 'R', 'L'}
    ensures ConvertToDeliveryStatus(s) == Failure(InvalidStatusPrefix + s)
  {
    forall d ensures StatusName(d) != s {
      LeadingChars(d);
    }
  }

  /** The lookup is by display name only: enum identifiers and other casings are rejected. */
  lemma IdentifiersAndOtherCasingsRejected()
    ensures ConvertToDeliveryStatus("DELIVERED").Failure?
    ensures ConvertToDeliveryStatus("IN_TRANSIT").Failure?
    ensures ConvertToDeliveryStatus("delivered").Failure?
    ensures ConvertToDeliveryStatus("Delivered") == Success(Delivered)
  {
    RejectedBySecondChar("DELIVERED");
    RejectedBySecondChar("IN_TRANSIT");
    RejectedByFirstChar("delivered");
    ConvertRoundTrip(Delivered);
  }
}
