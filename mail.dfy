/** The mail transport as the application sees it: what one send reports,
    and the sent/failed status both log tables record. */
module Mail {
  /** Delivery, or the text of the exception the transport raised. */
  datatype MailResult = Delivered | Raised(error: string)

  /** The status column of a log row, with the error text of a failure. */
  datatype LogStatus = Sent | Failed(error: string)

  /** The log status of a transport outcome. */
  function StatusOf(outcome: MailResult): (s: LogStatus)
    ensures s == Sent <==> outcome.Delivered?
    ensures s.Failed? ==> s.error == outcome.error
  {
    match outcome
    case Delivered => Sent
    case Raised(error) => Failed(error)
  }
}
