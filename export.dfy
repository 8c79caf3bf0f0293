/** The text block `context_export` returns (app/main.py:144-151): three
    headed sections of one line per row, joined with newlines and cut at
    a fixed number of characters. */
module Export {
  import opened Text
  import opened Tables

  const MaxExportChars: nat := 20000
  /** The `LIMIT`s of the goal and memory queries. */
  const MaxExportGoals: nat := 50
  const MaxExportMemories: nat := 100

  const StateHeader: string := "# State:"
  const GoalsHeader: string := "# Goals:"
  const MemoryHeader: string := "# Recent Memory:"

  /** `f"- {k}: {v}"` */
  function StateLine(row: (string, StateEntry)): (line: string)
    ensures var k, v := row.0, row.1.value;
      |line| == |k| + |v| + 4 && line[..2] == "- " && line[2..2 + |k|] == k
      && line[2 + |k|..4 + |k|] == ": " && line[4 + |k|..] == v
  {
    "- " + row.0 + ": " + row.1.value
  }

  /** `f"- [{status}] ({id}) {goal}"` */
  function GoalLine(g: Goal): (line: string)
    ensures var st, id := g.status, IntToDecimal(g.id);
      |line| == |st| + |id| + |g.goal| + 8 && line[..3] == "- [" && line[3..3 + |st|] == st
      && line[3 + |st|..6 + |st|] == "] ("
      && line[6 + |st|..6 + |st| + |id|] == id && line[6 + |st| + |id|..8 + |st| + |id|] == ") "
      && line[8 + |st| + |id|..] == g.goal
  {
    "- [" + g.status + "] (" + IntToDecimal(g.id) + ") " + g.goal
  }

  /** `f"- {event} ({tags})"` */
  function MemoryLine(m: MemoryRow): (line: string)
    ensures |line| == |m.event| + |m.tags| + 5 && line[..2] == "- "
      && line[2..2 + |m.event|] == m.event && line[2 + |m.event|..4 + |m.event|] == " ("
      && line[4 + |m.event|..4 + |m.event| + |m.tags|] == m.tags && line[|line| - 1] == ')'
  {
    "- " + m.event + " (" + m.tags + ")"
  }

  function StateLines(rows: seq<(string, StateEntry)>): seq<string> {
    seq(|rows|, i requires 0 <= i < |rows| => StateLine(rows[i]))
  }

  function GoalLines(rows: seq<Goal>): seq<string> {
    seq(|rows|, i requires 0 <= i < |rows| => GoalLine(rows[i]))
  }

  function MemoryLines(rows: seq<MemoryRow>): seq<string> {
    seq(|rows|, i requires 0 <= i < |rows| => MemoryLine(rows[i]))
  }

  /** The `lines` list, in the order the rows were selected. */
  function RenderLines(states: seq<(string, StateEntry)>, goals: seq<Goal>, memories: seq<MemoryRow>): seq<string>
  {
    [StateHeader] + StateLines(states)
    + ["", GoalsHeader] + GoalLines(goals)
    + ["", MemoryHeader] + MemoryLines(memories)
  }

  /** Builds the `lines` list as the endpoint does: the state header, one
      line per state row, an empty line and the goals header, one line per
      goal, an empty line and the memory header, one line per event. */
  method BuildLines(states: seq<(string, StateEntry)>, goals: seq<Goal>, memories: seq<MemoryRow>)
    returns (lines: seq<string>)
    ensures lines == RenderLines(states, goals, memories)
  {
    lines := [StateHeader];
    for i := 0 to |states|
      invariant lines == [StateHeader] + StateLines(states[..i])
    {
      assert states[..i + 1] == states[..i] + [states[i]];
      lines := lines + [StateLine(states[i])];
    }
    assert states[..|states|] == states;
    lines := lines + ["", GoalsHeader];
    ghost var head := lines;
    for i := 0 to |goals|
      invariant lines == head + GoalLines(goals[..i])
    {
      assert goals[..i + 1] == goals[..i] + [goals[i]];
      lines := lines + [GoalLine(goals[i])];
    }
    assert goals[..|goals|] == goals;
    lines := lines + ["", MemoryHeader];
    head := lines;
    for i := 0 to |memories|
      invariant lines == head + MemoryLines(memories[..i])
    {
      assert memories[..i + 1] == memories[..i] + [memories[i]];
      lines := lines + [MemoryLine(memories[i])];
    }
    assert memories[..|memories|] == memories;
  }

  /** `"\n".join(lines)` */
  function Render(states: seq<(string, StateEntry)>, goals: seq<Goal>, memories: seq<MemoryRow>): (text: string)
    ensures StateHeader <= text
  {
    Join("\n", RenderLines(states, goals, memories))
  }

  /** `text[:20000]`: the longest prefix of at most 20000 characters. */
  function Truncate(text: string): (r: string)
    ensures |r| <= MaxExportChars
    ensures r <= text
    ensures |text| <= MaxExportChars ==> r == text
    ensures |text| > MaxExportChars ==> |r| == MaxExportChars
  {
    if |text| <= MaxExportChars then text else text[..MaxExportChars]
  }

  /** The `prompt_block` the endpoint returns. */
  function ExportBlock(states: seq<(string, StateEntry)>, goals: seq<Goal>, memories: seq<MemoryRow>): (block: string)
    ensures |block| <= MaxExportChars && block <= Render(states, goals, memories)
    ensures |Render(states, goals, memories)| <= MaxExportChars ==> block == Render(states, goals, memories)
    ensures StateHeader <= block
  {
    Truncate(Render(states, goals, memories))
  }

  /** Joining across an empty line puts two separators at the seam. */
  lemma JoinAcrossBlank(sep: string, a: seq<string>, b: seq<string>)
    requires a != [] && b != []
    ensures Join(sep, a + ([""] + b)) == Join(sep, a) + (sep + sep + Join(sep, b))
  {
    JoinAppend(sep, [""], b);
    JoinAppend(sep, a, [""] + b);
  }

  /** Three blocks of lines separated by empty lines join to the three
      joined blocks separated by blank lines. */
  lemma JoinSections(s: seq<string>, g: seq<string>, m: seq<string>)
    requires s != [] && g != [] && m != []
    ensures Join("\n", s + ([""] + g) + ([""] + m))
      == Join("\n", s) + "\n\n" + Join("\n", g) + "\n\n" + Join("\n", m)
  {
    JoinAcrossBlank("\n", s + ([""] + g), m);
    JoinAcrossBlank("\n", s, g);
    assert "\n" + "\n" == "\n\n";
  }

  /** The untruncated text is three sections, each a header followed by
      its lines, with an empty line before the second and third header. */
  lemma RenderSections(states: seq<(string, StateEntry)>, goals: seq<Goal>, memories: seq<MemoryRow>)
    ensures Render(states, goals, memories)
      == Join("\n", [StateHeader] + StateLines(states)) + "\n\n"
       + Join("\n", [GoalsHeader] + GoalLines(goals)) + "\n\n"
       + Join("\n", [MemoryHeader] + MemoryLines(memories))
  {
    var s := [StateHeader] + StateLines(states);
    var g := [GoalsHeader] + GoalLines(goals);
    var m := [MemoryHeader] + MemoryLines(memories);
    assert RenderLines(states, goals, memories) == s + ([""] + g) + ([""] + m);
    JoinSections(s, g, m);
  }

  /** The block always begins with the state header, however long the
      sections are. */
  lemma ExportStartsWithStateHeader(states: seq<(string, StateEntry)>, goals: seq<Goal>, memories: seq<MemoryRow>)
    ensures StateHeader <= ExportBlock(states, goals, memories)
  {
  }

  /** When the state section alone reaches the cap, the block holds
      nothing but (a prefix of) that section: the goal and memory headers
      are cut off. */
  lemma LongStateHidesOtherSections(states: seq<(string, StateEntry)>, goals: seq<Goal>, memories: seq<MemoryRow>)
    requires |Join("\n", [StateHeader] + StateLines(states))| >= MaxExportChars
    ensures ExportBlock(states, goals, memories)
      == Join("\n", [StateHeader] + StateLines(states))[..MaxExportChars]
  {
    RenderSections(states, goals, memories);
  }

  /** With nothing stored, the block is the three headers alone. */
  lemma EmptyExport(states: seq<(string, StateEntry)>, goals: seq<Goal>, memories: seq<MemoryRow>)
    requires states == [] && goals == [] && memories == []
    ensures ExportBlock(states, goals, memories)
      == StateHeader + "\n\n" + GoalsHeader + "\n\n" + MemoryHeader
  {
    RenderSections(states, goals, memories);
    assert [StateHeader] + StateLines(states) == [StateHeader];
    assert [GoalsHeader] + GoalLines(goals) == [GoalsHeader];
    assert [MemoryHeader] + MemoryLines(memories) == [MemoryHeader];
  }
}
