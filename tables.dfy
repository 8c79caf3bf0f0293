/** The rows of the service's four tables (app/main.py:31-38) and the
    shapes its endpoints return. Timestamps are the whole seconds of the
    wall clock at the time of the write, passed in by the caller. */
module Tables {

  /** A row of `state`, keyed by its `k` column elsewhere. */
  datatype StateEntry = StateEntry(value: string, updatedAt: int)

  /** A row of the full-text table `memory`; its rowid is its position
      plus one, since rows are only ever appended. */
  datatype MemoryRow = MemoryRow(event: string, tags: string, createdAt: int)

  /** A row of `goals`. */
  datatype Goal = Goal(id: int, goal: string, status: string, createdAt: int)

  /** A row of `goal_notes`; `goalId` need not name an existing goal. */
  datatype GoalNote = GoalNote(id: int, goalId: int, note: string, createdAt: int)

  /** One element of the list `memory_search` returns. */
  datatype SearchHit = SearchHit(id: int, event: string, tags: string)

  /** The object `goals_add` returns. */
  datatype GoalCreated = GoalCreated(id: int, goal: string, status: string)

  /** The status every goal starts with. */
  const NewGoalStatus: string := "new"

  /** The rowid of the memory row at position `i`. */
  function MemoryRowId(i: nat): (id: int)
    ensures id >= 1
  {
    i + 1
  }
}
