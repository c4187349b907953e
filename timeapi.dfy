/** `convertTimezone` and the request it posts to the timeapi.io conversion endpoint.
    A call, with its three arguments, is one opaque, fallible function in this model
    (`Batch.Env.convert`); this module states what body that call posts. */
module TimeApi {

  /** The zone every schedule instant is meant to be sent in. */
  const Utc: string := "UTC"

  /** The arguments of one `convertTimezone(fromTimeZone, dateTime, toTimeZone)` call. */
  datatype ZoneCall = ZoneCall(fromZone: string, dateTime: string, toZone: string)

  /** The JSON body posted for one conversion; `dstAmbiguity` is always empty. Its
      `dateTime` is the call's argument after `formatDateTimeForTimeAPI`. */
  datatype ConversionRequest = ConversionRequest(fromTimeZone: string, dateTime: string, toTimeZone: string)

  /** The body `convertTimezone(fromZone, dateTime, toZone)` builds as written: the
      date-time goes through `format`, which stands for `formatDateTimeForTimeAPI` (its
      `new Date` parse depends on the host's zone, so the model leaves it a parameter),
      and the two zone arguments land in each other's fields. */
  function RequestAsWritten(format: string -> string, fromZone: string, dateTime: string, toZone: string): ConversionRequest
  {
    ConversionRequest(toZone, format(dateTime), fromZone)
  }

  /** The body `convertTimezone` is evidently meant to build: convert the formatted
      `dateTime` from `fromZone` into `toZone`. It is the corrected half of the zone-swap
      finding, set against `RequestAsWritten`. */
  function RequestFor(format: string -> string, fromZone: string, dateTime: string, toZone: string): (q: ConversionRequest)
    ensures q.fromTimeZone == fromZone && q.toTimeZone == toZone && q.dateTime == format(dateTime)
  {
    ConversionRequest(fromZone, format(dateTime), toZone)
  }

  /** Called as `convertTimezone(timezone, instant, 'UTC')`, the written body asks the
      service to convert FROM UTC into the schedule's zone, the opposite direction. */
  lemma AsWrittenConvertsFromUtc(format: string -> string, zone: string, dateTime: string)
    requires zone != Utc
    ensures RequestAsWritten(format, zone, dateTime, Utc).fromTimeZone == Utc
    ensures RequestAsWritten(format, zone, dateTime, Utc).toTimeZone == zone
    ensures RequestAsWritten(format, zone, dateTime, Utc) != RequestFor(format, zone, dateTime, Utc)
  {
  }

  /** A concrete input: a New York wall-clock time, formatted as a host in UTC formats it
      (`T` replaced by a space), is sent as if it were a UTC time. */
  lemma AsWrittenNewYorkExample(format: string -> string)
    requires format("2024-03-01T10:00:00") == "2024-03-01 10:00:00"
    ensures RequestAsWritten(format, "America/New_York", "2024-03-01T10:00:00", Utc)
         == ConversionRequest("UTC", "2024-03-01 10:00:00", "America/New_York")
  {
  }

  /** The corrected body names the schedule's own zone as the source and UTC as the target. */
  lemma CorrectedConvertsToUtc(format: string -> string, zone: string, dateTime: string)
    ensures RequestFor(format, zone, dateTime, Utc).fromTimeZone == zone
    ensures RequestFor(format, zone, dateTime, Utc).toTimeZone == Utc
    ensures RequestAsWritten(format, zone, dateTime, Utc) == RequestFor(format, Utc, dateTime, zone)
  {
  }
}
