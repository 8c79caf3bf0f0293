/** The service's endpoints (app/main.py:81-151) over an in-memory copy of
    its four tables. Each endpoint is one atomic change or one read; the
    wall clock (`int(time.time())`) is the parameter `now`, and the
    full-text engine's MATCH is the parameter `matches`. */
module Service {
  import opened Text
  import opened Tables
  import opened Ordering
  import opened Export

  const MaxSearchLimit: int := 200
  const DefaultSearchLimit: int := 20

  /** `max(1, min(limit, 200))`: the number of rows a search may return. */
  function EffectiveLimit(limit: int): (r: int)
    ensures 1 <= r <= MaxSearchLimit
    ensures 1 <= limit <= MaxSearchLimit ==> r == limit
    ensures limit < 1 ==> r == 1
    ensures limit > MaxSearchLimit ==> r == MaxSearchLimit
  {
    var capped := if limit < MaxSearchLimit then limit else MaxSearchLimit;
    if capped < 1 then 1 else capped
  }

  /** Python truthiness of an optional string: present and not empty. */
  predicate Truthy(s: Option<string>)
    ensures Truthy(s) ==> s.Some? && |s.value| >= 1
    ensures !Truthy(s) ==> s == None || s == Some("")
  {
    s.Some? && s.value != ""
  }

  /** `",".join(tags) if tags else ""`: the stored form of a tag list.
      Splitting it at commas gives the list back whenever no tag holds a
      comma. */
  function JoinTags(tags: Option<seq<string>>): (r: string)
    ensures tags.None? || tags.value == [] ==> r == ""
    ensures tags.Some? && tags.value != [] && (forall i :: 0 <= i < |tags.value| ==> ',' !in tags.value[i])
      ==> Split(r, ',') == tags.value
  {
    if tags.Some? && tags.value != [] then
      var joined := Join(",", tags.value);
      assert (forall i :: 0 <= i < |tags.value| ==> ',' !in tags.value[i]) ==> Split(joined, ',') == tags.value by {
        if forall i :: 0 <= i < |tags.value| ==> ',' !in tags.value[i] {
          SplitJoin(tags.value, ',');
        }
      }
      joined
    else ""
  }

  /** A tag holding a comma is stored exactly like two tags: the join
      loses information. */
  lemma CommaInTagIsAmbiguous(a: string, b: string)
    ensures JoinTags(Some([a + "," + b])) == JoinTags(Some([a, b]))
    ensures [a + "," + b] != [a, b]
  {
  }

  /** `UPDATE goals SET status=? WHERE id=?` applied to the goal rows. */
  function WithStatus(goals: seq<Goal>, id: int, status: string): (r: seq<Goal>)
    ensures |r| == |goals|
    ensures forall i :: 0 <= i < |goals| ==>
      r[i] == if goals[i].id == id then goals[i].(status := status) else goals[i]
  {
    if goals == [] then []
    else [if goals[0].id == id then goals[0].(status := status) else goals[0]]
         + WithStatus(goals[1..], id, status)
  }

  /** `SELECT ... FROM memory ORDER BY rowid DESC LIMIT 100`. */
  function NewestMemories(memory: seq<MemoryRow>): (rows: seq<MemoryRow>)
    ensures |rows| == if |memory| < MaxExportMemories then |memory| else MaxExportMemories
    ensures forall i :: 0 <= i < |rows| ==> rows[i] == memory[|memory| - 1 - i]
  {
    var n := if |memory| < MaxExportMemories then |memory| else MaxExportMemories;
    Reverse(memory[|memory| - n..])
  }

  /** The sort key of `ORDER BY updated_at DESC`. */
  function StateRecency(row: (string, StateEntry)): int {
    row.1.updatedAt
  }

  /** The sort key of `ORDER BY created_at DESC`. */
  function GoalRecency(g: Goal): int {
    g.createdAt
  }

  /** The rows of `SELECT k, v, updated_at FROM state`. */
  function StateItems(state: map<string, StateEntry>): set<(string, StateEntry)> {
    set k | k in state :: (k, state[k])
  }

  /** The rows of `SELECT id, goal, status, created_at FROM goals`. */
  function GoalItems(goals: seq<Goal>): set<Goal> {
    set g | g in goals
  }

  /** The export lists every state key exactly once, with its value. */
  lemma StateRowsByKey(rows: seq<(string, StateEntry)>, state: map<string, StateEntry>)
    requires IsNewestFirst(rows, StateItems(state), StateRecency, None)
    ensures forall k :: k in state ==> (k, state[k]) in rows
    ensures forall i :: 0 <= i < |rows| ==> rows[i].0 in state && rows[i].1 == state[rows[i].0]
    ensures forall i, j :: 0 <= i < j < |rows| ==> rows[i].0 != rows[j].0
  {
  }

  /** With distinct goal rows, the export lists min(50, number of goals)
      of them. */
  lemma RecentGoalsCount(rows: seq<Goal>, goals: seq<Goal>)
    requires forall i, j :: 0 <= i < j < |goals| ==> goals[i].id < goals[j].id
    requires IsNewestFirst(rows, GoalItems(goals), GoalRecency, Some(MaxExportGoals))
    ensures |rows| == if |goals| < MaxExportGoals then |goals| else MaxExportGoals
  {
    NewestFirstCount(rows, GoalItems(goals), GoalRecency, Some(MaxExportGoals));
    DistinctCard(goals);
  }

  class Store {
    /** Table `state`: key to value and time of the last write. */
    var state: map<string, StateEntry>
    /** Table `memory`, in rowid order. */
    var memory: seq<MemoryRow>
    /** Table `goals`, in id order. */
    var goals: seq<Goal>
    /** Table `goal_notes`, in id order. */
    var goalNotes: seq<GoalNote>
    /** The largest ids AUTOINCREMENT has handed out (`sqlite_sequence`). */
    var goalsSeq: nat
    var goalNotesSeq: nat

    /** Ids are positive, strictly increasing and never above the
        sequence counter, so the next id is fresh. */
    ghost predicate Valid()
      reads this
    {
      && (forall i :: 0 <= i < |goals| ==> 1 <= goals[i].id <= goalsSeq)
      && (forall i, j :: 0 <= i < j < |goals| ==> goals[i].id < goals[j].id)
      && (forall i :: 0 <= i < |goalNotes| ==> 1 <= goalNotes[i].id <= goalNotesSeq)
      && (forall i, j :: 0 <= i < j < |goalNotes| ==> goalNotes[i].id < goalNotes[j].id)
    }

    /** A freshly created database: four empty tables. */
    constructor ()
      ensures Valid()
      ensures state == map[] && memory == [] && goals == [] && goalNotes == []
      ensures goalsSeq == 0 && goalNotesSeq == 0
    {
      state := map[];
      memory := [];
      goals := [];
      goalNotes := [];
      goalsSeq := 0;
      goalNotesSeq := 0;
    }

    /** `state_set`: insert the key, or overwrite its value and time. */
    method StateSet(key: string, value: string, now: int)
      requires Valid()
      modifies this`state
      ensures Valid()
      ensures state == old(state)[key := StateEntry(value, now)]
      ensures |state| == if key in old(state) then |old(state)| else |old(state)| + 1
      ensures forall k :: k != key ==> (k in state <==> k in old(state))
      ensures forall k :: k != key && k in state ==> state[k] == old(state)[k]
    {
      state := state[key := StateEntry(value, now)];
    }

    /** `state_get`: the value stored under `key`, None when the key was
        never set. */
    method StateGet(key: string) returns (value: Option<string>)
      ensures value.Some? <==> key in state
      ensures value.Some? ==> value.value == state[key].value
    {
      value := if key in state then Some(state[key].value) else None;
    }

    /** `memory_add`: append one row; earlier rows are untouched. */
    method MemoryAdd(event: string, tags: Option<seq<string>>, now: int)
      requires Valid()
      modifies this`memory
      ensures Valid()
      ensures memory == old(memory) + [MemoryRow(event, JoinTags(tags), now)]
      ensures |memory| == |old(memory)| + 1 && old(memory) <= memory
    {
      memory := memory + [MemoryRow(event, JoinTags(tags), now)];
    }

    /** `memory_search`: at most `EffectiveLimit(limit)` stored rows that
        match `q`, each with its rowid; every matching row is returned
        when fewer than that many come back. */
    method MemorySearch(matches: (string, string, string) -> bool, q: string, limit: int := DefaultSearchLimit)
      returns (hits: seq<SearchHit>)
      ensures |hits| <= EffectiveLimit(limit)
      ensures forall a :: 0 <= a < |hits| ==> IsHitOf(hits[a], matches, q)
      ensures forall a, b :: 0 <= a < b < |hits| ==> hits[a].id < hits[b].id
      ensures |hits| < EffectiveLimit(limit) ==>
        forall i :: 0 <= i < |memory| && matches(q, memory[i].event, memory[i].tags) ==>
          HitAt(i) in hits
    {
      var cap := EffectiveLimit(limit);
      hits := [];
      var i := 0;
      while i < |memory| && |hits| < cap
        invariant 0 <= i <= |memory|
        invariant |hits| <= cap
        invariant forall a :: 0 <= a < |hits| ==> IsHitOf(hits[a], matches, q) && hits[a].id <= i
        invariant forall a, b :: 0 <= a < b < |hits| ==> hits[a].id < hits[b].id
        invariant forall j :: 0 <= j < i && matches(q, memory[j].event, memory[j].tags) ==>
          HitAt(j) in hits
      {
        var row := memory[i];
        if matches(q, row.event, row.tags) {
          hits := hits + [HitAt(i)];
        }
        i := i + 1;
      }
    }

    /** The search result for the memory row at position `i`. */
    function HitAt(i: nat): SearchHit
      requires i < |memory|
      reads this
    {
      SearchHit(MemoryRowId(i), memory[i].event, memory[i].tags)
    }

    /** `hit` names a stored row, by rowid, that matches `q`. */
    ghost predicate IsHitOf(hit: SearchHit, matches: (string, string, string) -> bool, q: string)
      reads this
    {
      1 <= hit.id <= |memory| && hit == HitAt(hit.id - 1) && matches(q, hit.event, hit.tags)
    }

    /** `goals_add`: a new goal with a fresh id and status "new". */
    method GoalsAdd(goal: string, now: int) returns (created: GoalCreated)
      requires Valid()
      modifies this`goals, this`goalsSeq
      ensures Valid()
      ensures created.goal == goal && created.status == NewGoalStatus
      ensures created.id == old(goalsSeq) + 1 && goalsSeq == created.id
      ensures forall i :: 0 <= i < |old(goals)| ==> old(goals)[i].id < created.id
      ensures goals == old(goals) + [Goal(created.id, goal, NewGoalStatus, now)]
    {
      goalsSeq := goalsSeq + 1;
      goals := goals + [Goal(goalsSeq, goal, NewGoalStatus, now)];
      created := GoalCreated(goalsSeq, goal, NewGoalStatus);
    }

    /** `goals_progress`: a non-empty status overwrites the status of the
        goal with that id (if there is one); a non-empty note is appended
        for that id whether or not the goal exists. */
    method GoalsProgress(goalId: int, status: Option<string>, note: Option<string>, now: int)
      requires Valid()
      modifies this`goals, this`goalNotes, this`goalNotesSeq
      ensures Valid()
      ensures |goals| == |old(goals)|
      ensures forall i :: 0 <= i < |goals| ==>
        goals[i] == if Truthy(status) && old(goals)[i].id == goalId
                    then old(goals)[i].(status := status.value) else old(goals)[i]
      ensures (forall i :: 0 <= i < |old(goals)| ==> old(goals)[i].id != goalId) ==> goals == old(goals)
      ensures goalNotes == if Truthy(note)
        then old(goalNotes) + [GoalNote(old(goalNotesSeq) + 1, goalId, note.value, now)]
        else old(goalNotes)
      ensures goalNotesSeq == if Truthy(note) then old(goalNotesSeq) + 1 else old(goalNotesSeq)
    {
      if Truthy(status) {
        goals := WithStatus(goals, goalId, status.value);
      }
      if Truthy(note) {
        goalNotesSeq := goalNotesSeq + 1;
        goalNotes := goalNotes + [GoalNote(goalNotesSeq, goalId, note.value, now)];
      }
    }

    /** `context_export`: run the three queries, build the `lines` list
        section by section, join it and keep the first 20000 characters. */
    method ContextExport() returns (block: string,
                                    ghost stateRows: seq<(string, StateEntry)>,
                                    ghost goalRows: seq<Goal>,
                                    ghost memoryRows: seq<MemoryRow>)
      requires Valid()
      ensures IsNewestFirst(stateRows, StateItems(state), StateRecency, None)
      ensures forall k :: k in state ==> (k, state[k]) in stateRows
      ensures forall i, j :: 0 <= i < j < |stateRows| ==> stateRows[i].0 != stateRows[j].0
      ensures IsNewestFirst(goalRows, GoalItems(goals), GoalRecency, Some(MaxExportGoals))
      ensures |goalRows| == if |goals| < MaxExportGoals then |goals| else MaxExportGoals
      ensures memoryRows == NewestMemories(memory)
      ensures block == ExportBlock(stateRows, goalRows, memoryRows)
      ensures |block| <= MaxExportChars && StateHeader <= block
    {
      var states := SelectNewest(StateItems(state), StateRecency, None);
      var recentGoals := SelectNewest(GoalItems(goals), GoalRecency, Some(MaxExportGoals));
      var memories := NewestMemories(memory);

      var lines := BuildLines(states, recentGoals, memories);
      var text := Join("\n", lines);
      block := Truncate(text);
      stateRows, goalRows, memoryRows := states, recentGoals, memories;
      ExportStartsWithStateHeader(stateRows, goalRows, memoryRows);
      StateRowsByKey(stateRows, state);
      RecentGoalsCount(goalRows, goals);
    }
  }

  /** Writing a key twice leaves one row holding the second value. */
  method SetTwiceThenGet(store: Store, key: string, first: string, second: string, t1: int, t2: int)
    returns (value: Option<string>)
    requires store.Valid()
    modifies store
    ensures store.Valid()
    ensures value == Some(second)
    ensures |store.state| == if key in old(store.state) then |old(store.state)| else |old(store.state)| + 1
    ensures forall k :: k != key && k in old(store.state) ==> k in store.state && store.state[k] == old(store.state)[k]
  {
    store.StateSet(key, first, t1);
    store.StateSet(key, second, t2);
    value := store.StateGet(key);
  }

  /** A session on a fresh database: a state key is written and read back. */
  method ExampleStateSession() {
    var store := new Store();
    store.StateSet("mood", "curious", 1000);
    var mood := store.StateGet("mood");
    assert mood == Some("curious");
  }

  /** A session on a fresh database: a goal is created, then its status
      changes and a progress note is logged. */
  method ExampleGoalSession() {
    var store := new Store();
    var created := store.GoalsAdd("ship v1", 1002);
    assert created == GoalCreated(1, "ship v1", "new");
    assert Truthy(Some("in_progress")) && Truthy(Some("drafted spec"));
    store.GoalsProgress(1, Some("in_progress"), Some("drafted spec"), 1003);
    assert store.goals[0] == Goal(1, "ship v1", "in_progress", 1002);
    assert store.goalNotes == [GoalNote(1, 1, "drafted spec", 1003)];
  }
}
