/**
 * The in-memory run report: an append-only list of log lines and of group
 * summaries, its snapshot, and the summary and footer texts built from it.
 */
module Logging {
  import opened Wrappers
  import opened Text

  datatype LogLevel = Info | Ok | Warn

  datatype LogLine = LogLine(level: LogLevel, msg: string, highlight: Option<string>)

  /** One finished step and how many things it changed (`usize`). */
  datatype GroupSummary = GroupSummary(title: string, affectedCount: nat)

  datatype LogSnapshot = LogSnapshot(lines: seq<LogLine>, groups: seq<GroupSummary>)

  function InfoLine(msg: string): LogLine {
    LogLine(Info, msg, None)
  }

  function WarnLine(msg: string): LogLine {
    LogLine(Warn, msg, None)
  }

  function OkLine(msg: string, highlight: string): LogLine {
    LogLine(Ok, msg, Some(highlight))
  }

  /** `MemoryLogger`: every operation appends to one of its two lists. */
  class MemoryLogger {
    var lines: seq<LogLine>
    var groups: seq<GroupSummary>

    /** `MemoryLogger::default()`. */
    constructor ()
      ensures lines == [] && groups == []
    {
      lines := [];
      groups := [];
    }

    method Info(msg: string)
      modifies this
      ensures lines == old(lines) + [InfoLine(msg)]
      ensures groups == old(groups)
    {
      lines := lines + [InfoLine(msg)];
    }

    method Warn(msg: string)
      modifies this
      ensures lines == old(lines) + [WarnLine(msg)]
      ensures groups == old(groups)
    {
      lines := lines + [WarnLine(msg)];
    }

    method OkWithHighlight(msg: string, highlight: string)
      modifies this
      ensures lines == old(lines) + [OkLine(msg, highlight)]
      ensures groups == old(groups)
    {
      lines := lines + [OkLine(msg, highlight)];
    }

    method AddGroup(title: string, affectedCount: nat)
      modifies this
      ensures groups == old(groups) + [GroupSummary(title, affectedCount)]
      ensures lines == old(lines)
    {
      groups := groups + [GroupSummary(title, affectedCount)];
    }

    /** A copy of both lists; the logger is not changed. */
    method Snapshot() returns (s: LogSnapshot)
      ensures s.lines == lines && s.groups == groups
    {
      s := LogSnapshot(lines, groups);
    }
  }

  /** `"{title}: {count}"`. */
  function GroupPart(g: GroupSummary): string {
    g.title + ": " + NatToString(g.affectedCount)
  }

  function GroupParts(groups: seq<GroupSummary>): (parts: seq<string>)
    ensures |parts| == |groups|
    ensures forall k :: 0 <= k < |groups| ==> parts[k] == GroupPart(groups[k])
  {
    seq(|groups|, k requires 0 <= k < |groups| => GroupPart(groups[k]))
  }

  const NoChanges := "Summary: no changes"
  const SummaryHead := "Summary — "
  const PartSeparator := " · "

  /** The plain summary: `Summary: no changes` without groups, otherwise
      `Summary — ` and the groups' parts joined by ` · `, in group order. */
  function SummaryText(groups: seq<GroupSummary>): string {
    if groups == [] then NoChanges else SummaryHead + Join(GroupParts(groups), PartSeparator)
  }

  /** The footer of the report screen: the error if there is one, the
      summary otherwise. The summary parts are collected by a loop. */
  method FooterText(snapshot: LogSnapshot, err: Option<string>) returns (text: string)
    ensures err.Some? ==> text == "Error: " + err.value
    ensures err.None? ==> text == SummaryText(snapshot.groups)
  {
    if err.Some? {
      return "Error: " + err.value;
    }
    var summaryParts: seq<string> := [];
    var i := 0;
    while i < |snapshot.groups|
      invariant 0 <= i <= |snapshot.groups|
      invariant summaryParts == GroupParts(snapshot.groups[..i])
    {
      var g := snapshot.groups[i];
      summaryParts := summaryParts + [g.title + ": " + NatToString(g.affectedCount)];
      i := i + 1;
    }
    assert snapshot.groups[..i] == snapshot.groups;
    if summaryParts == [] {
      text := NoChanges;
    } else {
      text := SummaryHead + Join(summaryParts, PartSeparator);
    }
  }

  /** The summary says "no changes" exactly when no group was recorded. */
  lemma NoChangesIff(groups: seq<GroupSummary>)
    ensures SummaryText(groups) == NoChanges <==> groups == []
  {
    if groups != [] {
      assert SummaryText(groups)[7] == ' ';
      assert NoChanges[7] == ':';
    }
  }

  /** The count of a part reads back from the digits after `": "`. */
  lemma GroupPartCount(g: GroupSummary)
    ensures |g.title| + 2 <= |GroupPart(g)|
    ensures var digits := GroupPart(g)[|g.title| + 2..];
      (forall i :: 0 <= i < |digits| ==> '0' <= digits[i] <= '9')
      && DecimalValue(digits) == g.affectedCount
  {
    assert GroupPart(g)[|g.title| + 2..] == NatToString(g.affectedCount);
    DecimalRoundTrip(g.affectedCount);
  }

  /** The first group's part follows the head of a non-empty summary. */
  lemma SummaryStartsWithFirstGroup(groups: seq<GroupSummary>)
    requires groups != []
    ensures StartsWith(SummaryText(groups), SummaryHead + GroupPart(groups[0]))
  {
    var parts := GroupParts(groups);
    var head := SummaryHead + GroupPart(groups[0]);
    if |parts| == 1 {
      assert SummaryText(groups) == head;
    } else {
      assert SummaryText(groups) == head + (PartSeparator + Join(parts[1..], PartSeparator));
    }
    assert SummaryText(groups)[..|head|] == head;
  }
}
