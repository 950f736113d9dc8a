/**
 * Records of the user's progress state that are plain values: the log entry
 * written for each completed activity and a stored daily-earned amount.
 */
module Records {
  import opened Wrappers

  /**
   * One completed activity. `skill` is the activity's primary skill;
   * `gained` the XP granted in all and `gainedBySkill` per skill (absent in
   * entries of a stored state that never had one).
   */
  datatype LogEntry = LogEntry(
    at: int,
    skill: string,
    minutes: int,
    difficulty: string,
    noDistraction: bool,
    gained: int,
    gainedBySkill: Option<map<string, int>>)

  /** A stored daily-earned amount, read as a number: finite, or NaN/Infinity. */
  datatype Earned = Finite(value: int) | NotFinite

  /** The stored amount for `day`, a missing or non-finite one read as 0. */
  function EarnedOn(dailyEarned: map<string, Earned>, day: string): int
  {
    if day in dailyEarned && dailyEarned[day].Finite? then dailyEarned[day].value else 0
  }
}
