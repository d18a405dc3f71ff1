/**
 * A row of the time card: a day (YYYY-MM-DD text), start and end clock texts, a break text, and
 * whether the row is a placeholder for a day without work.
 */
module TimeEntries {

  datatype TimeEntry = TimeEntry(
    id: string,
    date: string,
    startTime: string,
    endTime: string,
    breakDeduction: string,
    isBlank: bool)

  const DefaultStart := "09:00"
  const DefaultEnd := "17:00"
  const DefaultBreak := "30m"

  /** initialEntry: a real row for the day, 09:00 to 17:00 with a 30 minute break. */
  function InitialEntry(id: string, date: string): (e: TimeEntry)
    ensures e.id == id && e.date == date && !e.isBlank
    ensures e.startTime == DefaultStart && e.endTime == DefaultEnd && e.breakDeduction == DefaultBreak
  {
    TimeEntry(id, date, DefaultStart, DefaultEnd, DefaultBreak, false)
  }

  /** createBlankEntry: a placeholder row for the day, with every text field empty. */
  function BlankEntry(id: string, date: string): (e: TimeEntry)
    ensures e.id == id && e.date == date && e.isBlank
    ensures e.startTime == "" && e.endTime == "" && e.breakDeduction == ""
  {
    TimeEntry(id, date, "", "", "", true)
  }
}
