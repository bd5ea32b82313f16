/** The one unit that the retention of the demo and the dates of Gold share. */
module Calendar {
  // Milliseconds in a day.
  const DAY_MS := 86_400_000
}
