/** Result codes and format selectors shared by the validators, the matcher and the store. */
module Codes {

  /** `code_t`: the outcome of every validation or insertion call. */
  datatype Code =
    | Validated
    | InvalidFormat
    | InvalidYear
    | InvalidMonth
    | InvalidDay
    | InvalidHour
    | InvalidMinute
    | InvalidSecond
    | InvalidTmz
    | InvalidRequest
    | InvalidMemory

  /** `format_t`: the layout a validator is asked to check
      (UTC8601, HHMMSS, HHMM and YYYYMMDD respectively). */
  datatype Format = Utc8601 | HourMinSec | HourMin | YearMonthDay
}
