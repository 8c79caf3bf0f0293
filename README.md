# External memory & state service — Dafny model

This project models the core of a small persistent-memory service for an
external agent (`app/main.py`). The service has:

- a key/value `state` table with last-write-wins upserts;
- an append-only, full-text-searchable `memory` event log;
- a `goals` table with a `goal_notes` progress log;
- a bearer-token gate in front of every endpoint;
- a `context_export` endpoint that renders all of it into one text block of
  at most 20000 characters.

The SQLite tables are modelled as fields of one class, `Service.Store`:

| field | models |
|---|---|
| `state: map<string, StateEntry>` | table `state` |
| `memory: seq<MemoryRow>` | table `memory`; the rowid is the position plus one |
| `goals: seq<Goal>` | table `goals` |
| `goalNotes: seq<GoalNote>` | table `goal_notes` |
| `goalsSeq`, `goalNotesSeq` | the AUTOINCREMENT counters |

Each endpoint is a method that changes these fields atomically. The wall
clock (`int(time.time())`) is a parameter `now`. The configured API key is a
parameter of `Auth.Authorize`.

Modules:

- `Text` (text.dfy): Python's `sep.join`, `split`, `str(int)` and list
  reversal, with their inverse properties.
- `Auth` (auth.dfy): the `auth` dependency. It follows the `Authorization:
  Bearer <token>` form of section 2.1 of RFC 6750, with a case-sensitive
  prefix.
- `Tables` (tables.dfy): the row types.
- `Ordering` (ordering.dfy): the `ORDER BY ... DESC [LIMIT n]` queries. Rows
  whose keys tie are picked nondeterministically, so no tie-break is assumed.
- `Export` (export.dfy): the export's line templates, the `lines` list, the
  newline join and the 20000-character cut.
- `Service` (service.dfy): the limit clamp, the tag join, the status update,
  and the `Store` class with one method per endpoint.

The export cuts the joined text at 20000 characters (app/main.py:151), so
only the `# State:` header is certain to survive; the `# Goals:` and
`# Recent Memory:` headers can be cut off. `Export.LongStateHidesOtherSections`
shows that this happens when the state section alone reaches the cap.

## Model

| member | source | states |
|---|---|---|
| `Auth.Authorize` | app/main.py:14-20 | 401 "Missing/invalid token" exactly when the header is absent or lacks the exact prefix "Bearer "; 403 "Forbidden" exactly when it has the prefix and the text after it differs from the key; accepted exactly when the header is "Bearer " + key; these are the only outcomes |
| `Auth.AfterFirstSpace` | app/main.py:17 | `split(" ", 1)[1]` exists iff the text has a space, and is everything after the first space (no space before it) |
| `Auth.BearerToken` | app/main.py:15-17 | for a header starting with "Bearer ", the token taken after the first space is the header minus that prefix |
| `Service.EffectiveLimit` | app/main.py:107-108 | the effective search limit lies in [1, 200], equals the request when already in range, is 1 below it and 200 above it |
| `Service.JoinTags` | app/main.py:99 | absent or empty tags are stored as ""; otherwise the comma-joined tags, which split back at commas to the original list when no tag holds a comma |
| `Service.CommaInTagIsAmbiguous` | app/main.py:99 | a tag "a,b" is stored exactly like the two tags "a" and "b", so the join is lossy |
| `Text.SplitJoin` | app/main.py:99 | splitting a separator-joined non-empty list at the separator gives the list back when no part holds the separator |
| `Text.Join` | app/main.py:150 | the joined text starts with the first part; joining one part gives that part, joining none gives "" |
| `Text.JoinAppend` | app/main.py:150 | joining two non-empty line lists puts exactly one separator at the seam |
| `Text.IntToDecimal` | app/main.py:147 | the rendered goal id starts with "-" iff the id is negative, its digits read back as the id's magnitude, and it has no leading zero (only "0" itself starts with "0") |
| `Text.NatToDecimalValue` | app/main.py:147 | reading back the decimal digits of a natural number gives that number |
| `Text.Reverse` | app/main.py:141 | the reversal has the same length, with element i taken from position n-1-i |
| `Service.NewestMemories` | app/main.py:141 | `ORDER BY rowid DESC LIMIT 100`: min(100, n) rows, row i being the i-th newest event |
| `Ordering.SelectNewest` | app/main.py:139-140 | the query result: distinct stored rows, keys non-increasing, at most the limit, every row when fewer than the limit came back, and no omitted row newer than a returned one |
| `Ordering.NewestFirstCount` | app/main.py:140 | such a result has exactly min(limit, number of rows) rows |
| `Service.StateRowsByKey` | app/main.py:139 | the state query lists every key exactly once, with its stored value |
| `Service.RecentGoalsCount` | app/main.py:140 | with distinct goal ids, the goal query returns min(50, number of goals) goals |
| `Service.WithStatus` | app/main.py:129 | `UPDATE goals SET status=? WHERE id=?`: same number of goals; a goal with that id gets the new status, every other goal is unchanged |
| `Service.Store.constructor` | app/main.py:27-39 | a freshly created database has four empty tables and zeroed id counters |
| `Service.Store.StateSet` | app/main.py:81-88 | upsert: the key maps to (value, now); the key count grows by one only for a new key; every other key and its value and timestamp are unchanged |
| `Service.Store.StateGet` | app/main.py:90-95 | the lookup returns the stored value, and None exactly when the key was never set |
| `Service.Store.MemoryAdd` | app/main.py:97-104 | appends exactly one row (event, joined tags, now); the earlier rows are a prefix of the new log |
| `Service.Store.MemorySearch` | app/main.py:106-113 | at most `EffectiveLimit(limit)` hits; each hit is a stored row matching the query, carrying its rowid, event and tags; the hits are in ascending rowid order; every matching row is returned when fewer than the limit come back |
| `Service.Store.GoalsAdd` | app/main.py:115-123 | the new goal has an id one above the counter and above every earlier id, echoes the goal text, has status "new", and is appended to the goals |
| `Service.Store.GoalsProgress` | app/main.py:125-134 | a non-empty status changes only the status of the goal with that id, and nothing when no goal has it; a non-empty note appends exactly one note with that goal id, whether or not the goal exists; an empty or absent field changes nothing |
| `Service.SetTwiceThenGet` | app/main.py:81-95 | after two writes to one key, the lookup returns the second value; the key count grows by one only if the key was new, and other keys keep their entries |
| `Service.Store.ContextExport` | app/main.py:136-151 | the block is the rendering of: state rows newest first with each key once; min(50, n) goals newest first; the 100 newest events. The block is at most 20000 characters and starts with "# State:" |
| `Service.Truthy` | app/main.py:128-130 | a status or note counts exactly when it is present and non-empty; absent and "" are both skipped |
| `Export.StateLine` | app/main.py:145 | a state line is "- ", the key, ": " and the value, in that order and nothing else |
| `Export.GoalLine` | app/main.py:147 | a goal line is "- [", the status, "] (", the decimal id, ") " and the goal text, in that order and nothing else |
| `Export.MemoryLine` | app/main.py:149 | a memory line is "- ", the event, " (", the stored tags and ")", in that order and nothing else |
| `Export.Render` | app/main.py:150 | the newline-joined text starts with "# State:" |
| `Export.ExportBlock` | app/main.py:150-151 | the block is a prefix of the joined text of at most 20000 characters, the whole text when it fits, and starts with "# State:" |
| `Export.BuildLines` | app/main.py:144-149 | the list built section by section is the state header, the state lines, "", the goals header, the goal lines, "", the memory header and the memory lines |
| `Export.Truncate` | app/main.py:151 | `text[:20000]` is at most 20000 characters and a prefix of the text; it is the whole text when that fits, and exactly 20000 characters otherwise |
| `Export.RenderSections` | app/main.py:144-150 | the untruncated text is the state section, a blank line, the goals section, a blank line and the memory section, each section being its header followed by its lines |
| `Export.ExportStartsWithStateHeader` | app/main.py:144-151 | the exported block always starts with "# State:" |
| `Export.LongStateHidesOtherSections` | app/main.py:145-151 | when the state section alone reaches 20000 characters, the block is that section's first 20000 characters, so the other headers are cut off |
| `Export.EmptyExport` | app/main.py:144-151 | with no rows, the block is the three headers separated by blank lines |

## Left out

- FastAPI routing, dependency injection, Pydantic request models, CORS and the static home page (app/main.py:43-79) are framework plumbing. The model keeps the gate (`Auth.Authorize`) and the handlers separate and does not model that each handler runs only after the gate accepts.
- Connection handling, schema creation and directory creation (app/main.py:22-41) are I/O. The constructor models only a freshly created, empty database, not reopening an existing file.
- Storage failures (disk full, corruption, lock time-outs) are not modelled; every operation succeeds.
- Service.Store.MemorySearch: FTS5 `MATCH` with porter stemming is the parameter `matches`, and malformed-query errors are not modelled. The query has no `ORDER BY`. The model assumes the full-text index returns matches in ascending rowid order, which is its usual order for a plain `MATCH`; an order chosen by the engine is not modelled.
- Service.Store.ContextExport: the unused `max_tokens` parameter (app/main.py:137) is omitted. Rows with equal `updated_at` or `created_at` come out in an order the model leaves open.
- Service.Store.GoalsAdd: SQLite's 64-bit integer range is not modelled, so the AUTOINCREMENT failure after id 2^63-1 is absent.
- Service.Store.GoalsProgress: `goal_id` is an unbounded integer, so the overflow error SQLite raises for a `goal_id` outside 64 bits is absent.
- `time.time()` and the environment variables `API_KEY`, `DB_PATH` and `ALLOWED_ORIGINS` (app/main.py:11-12, 46) become parameters or are not modelled.
- The endpoints' `{"ok": true}` replies carry no information and are not modelled.
