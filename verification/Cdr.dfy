/** The event schema: call records, fraud alerts and the rule identifiers (internal/cdr). */
module Cdr {

  datatype Option<+T> = None | Some(value: T)

  datatype Point = Point(lat: real, lon: real)

  datatype Rule = Velocity | ImpossibleTravel | Irsf

  const NS_PER_MS := 1_000_000

  /** A call record. The start time is kept in nanoseconds since the epoch. */
  datatype Record = Record(id: string, caller: string, callee: string,
                           startNs: int, durationSec: int, cell: string)
  {
    /** time.Time.UnixMilli: floors towards the past, also before the epoch. */
    function Ms(): int {
      startNs / NS_PER_MS
    }

    lemma MsFloors()
      ensures Ms() * 1_000_000 <= startNs < (Ms() + 1) * 1_000_000
    {
    }
  }

  /** A message on cdr.raw either decodes to a record or does not decode at all. */
  datatype Message = Unparseable | Parsed(rec: Record)

  /** What identifies an alert; the evidence text is presentation only. */
  datatype Alert = Alert(id: string, caller: string, rule: Rule, score: real)

  function RuleName(rule: Rule): string {
    match rule
    case Velocity => "velocity"
    case ImpossibleTravel => "impossible_travel"
    case Irsf => "irsf"
  }

  function AlertFor(rec: Record, rule: Rule, score: real): Alert {
    Alert(rec.id, rec.caller, rule, score)
  }
}
