/**
 The resumable reader of the episode index.  The file is text; a position counts characters,
 and a line ends with a line feed, a carriage return, or both.
 */
module EpisodeCursor {
  import opened Wrappers
  import opened EpisodeLine

  // ---------- lines of the file ----------

  predicate IsBreak(c: char) {
    c == '\n' || c == '\r'
  }

  /** Where the line at `pos` ends, before its line end. */
  function TextEnd(content: string, pos: nat): (end: nat)
    requires pos <= |content|
    ensures pos <= end <= |content|
    ensures forall i :: pos <= i < end ==> !IsBreak(content[i])
    ensures end < |content| ==> IsBreak(content[end])
    decreases |content| - pos
  {
    if pos == |content| || IsBreak(content[pos]) then pos else TextEnd(content, pos + 1)
  }

  /** Where the next line starts. */
  function LineEnd(content: string, pos: nat): (end: nat)
    requires pos <= |content|
    ensures pos <= end <= |content|
    ensures pos < |content| ==> pos < end
  {
    var text := TextEnd(content, pos);
    if text == |content| then text
    else if content[text] == '\r' && text + 1 < |content| && content[text + 1] == '\n' then text + 2
    else text + 1
  }

  /** A line is ended by the first line feed, carriage return, or both in this order, or by the end of the file. */
  lemma LineIsWhole(content: string, pos: nat)
    requires pos <= |content|
    ensures var text, end := TextEnd(content, pos), LineEnd(content, pos);
            && (forall i :: pos <= i < text ==> content[i] != '\n' && content[i] != '\r')
            && content[text..end] in {"", "\n", "\r", "\r\n"}
            && (content[text..end] == "" ==> end == |content|)
            && (content[text..end] == "\r" && end < |content| ==> content[end] != '\n')
  {
    var text, end := TextEnd(content, pos), LineEnd(content, pos);
    assert end == text + 2 ==> content[text..end] == [content[text], content[text + 1]];
    assert end == text + 1 ==> content[text..end] == [content[text]];
  }

  /** The entry on the line at `pos`, if it is a valid one. */
  function EntryAt(content: string, pos: nat): Option<Candidate>
    requires pos <= |content|
  {
    ParseLine(content[pos..TextEnd(content, pos)])
  }

  // ---------- what lies between two positions ----------

  /** `to` is reached from `from` line by line. */
  ghost predicate Reaches(content: string, from: nat, to: nat)
    decreases |content| - from
  {
    from <= to <= |content| && (from == to || Reaches(content, LineEnd(content, from), to))
  }

  ghost function LinesBetween(content: string, from: nat, to: nat): nat
    requires Reaches(content, from, to)
    decreases |content| - from
  {
    if from == to then 0 else 1 + LinesBetween(content, LineEnd(content, from), to)
  }

  /** The valid entries between two positions, in order. */
  ghost function EntriesBetween(content: string, from: nat, to: nat): seq<Candidate>
    requires Reaches(content, from, to)
    decreases |content| - from
  {
    if from == to then []
    else
      var rest := EntriesBetween(content, LineEnd(content, from), to);
      match EntryAt(content, from)
      case None => rest
      case Some(e) => [e] + rest
  }

  lemma {:induction false} EndIsReached(content: string, from: nat)
    requires from <= |content|
    ensures Reaches(content, from, |content|)
    decreases |content| - from
  {
    if from < |content| {
      EndIsReached(content, LineEnd(content, from));
    }
  }

  lemma {:induction false} ReachesOn(content: string, a: nat, b: nat, c: nat)
    requires Reaches(content, a, b) && Reaches(content, b, c)
    ensures Reaches(content, a, c)
    decreases |content| - a
  {
    hide LineEnd;
    if a != b {
      ReachesOn(content, LineEnd(content, a), b, c);
    }
  }

  lemma {:induction false} Concatenates(content: string, a: nat, b: nat, c: nat)
    requires Reaches(content, a, b) && Reaches(content, b, c)
    ensures Reaches(content, a, c)
    ensures EntriesBetween(content, a, c) == EntriesBetween(content, a, b) + EntriesBetween(content, b, c)
    ensures LinesBetween(content, a, c) == LinesBetween(content, a, b) + LinesBetween(content, b, c)
    decreases |content| - a
  {
    hide LineEnd, Entry, Reaches, EntriesBetween, LinesBetween;
    ReachesOn(content, a, b, c);
    Forward(content, a, b);
    Forward(content, b, c);
    if a == b {
      Standing(content, a);
    } else {
      Unroll(content, a, b);
      Unroll(content, a, c);
      Concatenates(content, LineEnd(content, a), b, c);
    }
  }

  lemma Forward(content: string, from: nat, to: nat)
    requires Reaches(content, from, to)
    ensures from <= to <= |content|
  {}

  ghost function Entry(content: string, pos: nat): seq<Candidate>
    requires pos <= |content|
  {
    match EntryAt(content, pos)
    case None => []
    case Some(e) => [e]
  }

  lemma Unroll(content: string, a: nat, b: nat)
    requires Reaches(content, a, b) && a < b
    ensures Reaches(content, LineEnd(content, a), b)
    ensures EntriesBetween(content, a, b) == Entry(content, a) + EntriesBetween(content, LineEnd(content, a), b)
    ensures LinesBetween(content, a, b) == 1 + LinesBetween(content, LineEnd(content, a), b)
  {
    hide LineEnd, EntryAt;
  }

  lemma Extends(content: string, from: nat, pos: nat)
    requires Reaches(content, from, pos) && pos < |content|
    ensures Reaches(content, from, LineEnd(content, pos))
    ensures EntriesBetween(content, from, LineEnd(content, pos))
            == EntriesBetween(content, from, pos) + Entry(content, pos)
    ensures LinesBetween(content, from, LineEnd(content, pos)) == LinesBetween(content, from, pos) + 1
  {
    hide EntryAt;
    OneLine(content, pos);
    hide LineEnd;
    Concatenates(content, from, pos, LineEnd(content, pos));
  }

  lemma OneLine(content: string, from: nat)
    requires from < |content|
    ensures Reaches(content, from, LineEnd(content, from))
    ensures LinesBetween(content, from, LineEnd(content, from)) == 1
    ensures EntriesBetween(content, from, LineEnd(content, from)) == Entry(content, from)
  {
    hide EntryAt;
    var next := LineEnd(content, from);
    hide LineEnd;
    assert Reaches(content, next, next);
  }

  function Parents(batch: seq<Candidate>): set<string> {
    set e | e in batch :: e.parent
  }

  // ---------- the archive and its cursor ----------

  datatype Cursor = Cursor(line: int, byte: int, exhausted: bool)

  class Archive {
    var content: Option<string>
    var cursor: Cursor
    var total: int

    constructor (content: Option<string>, cursor: Cursor, total: int)
      ensures this.content == content && this.cursor == cursor && this.total == total
    {
      this.content, this.cursor, this.total := content, cursor, total;
    }

    /** Where reading starts: a cursor behind the end of the file starts over. */
    ghost function StartByte(): nat
      reads this
    {
      var byte := if cursor.byte < 0 then 0 else cursor.byte;
      if content.Some? && byte > |content.value| then 0 else byte
    }

    ghost function StartLine(): nat
      reads this
    {
      if (content.Some? && cursor.byte > |content.value|) || cursor.line < 0 then 0 else cursor.line
    }

    /** Cursor and line total fit the file, as rebuild and commits leave them. */
    ghost predicate Consistent()
      reads this
    {
      content.Some? ==>
        && Reaches(content.value, 0, StartByte()) && StartLine() == LinesBetween(content.value, 0, StartByte())
        && Reaches(content.value, 0, |content.value|) && total == LinesBetween(content.value, 0, |content.value|)
        && (cursor.exhausted ==> StartByte() == |content.value|)
    }

    method Reset(exhausted: bool)
      modifies this`cursor
      ensures cursor == Cursor(0, 0, exhausted)
    {
      cursor := Cursor(0, 0, exhausted);
    }

    method Commit(line: int, byte: int, exhausted: bool)
      modifies this`cursor
      ensures cursor == Cursor(if line < 0 then 0 else line, if byte < 0 then 0 else byte, exhausted)
    {
      cursor := Cursor(if line < 0 then 0 else line, if byte < 0 then 0 else byte, exhausted);
    }
  }

  /** At most 250 rows for each title, and at most 1000. */
  ghost function RowLimit(titleLimit: int): int {
    if titleLimit >= 4 then 1000 else titleLimit * 250
  }

  /** Why a batch ends where it does: at the end, full, or before an entry of one title too many. */
  ghost predicate Full(content: string, batch: seq<Candidate>, next: nat, titleLimit: int)
    requires next <= |content|
  {
    || next == |content| || |batch| == RowLimit(titleLimit)
    || (EntryAt(content, next).Some? && EntryAt(content, next).value.parent !in Parents(batch)
       && |Parents(batch)| == titleLimit)
  }

  /** The loop over the lines from `from`. */
  method ReadFrom(
    content: string, from: nat, limit: int)
    returns (batch: seq<Candidate>, pos: nat, lines: nat, atEnd: bool)
    requires from <= |content| && limit >= 1
    ensures Reaches(content, from, pos) && batch == EntriesBetween(content, from, pos)
            && lines == LinesBetween(content, from, pos)
    ensures |batch| <= RowLimit(limit) && |Parents(batch)| <= limit && Full(content, batch, pos, limit)
    ensures pos == from ==> from == |content|
    ensures atEnd ==> pos == |content|
    ensures pos == |content| && |batch| < RowLimit(limit) ==> atEnd
  {
    hide LineEnd, EntryAt, Reaches, EntriesBetween, LinesBetween;
    Standing(content, from);
    batch, pos, lines, atEnd := [], from, 0, false;
    var seen: set<string> := {};
    var fitting := if limit * 250 > 1000 then 1000 else limit * 250;
    var maxRows := if fitting < 1 then 1 else fitting;
    while |batch| < maxRows
      invariant from <= pos <= |content| && Reaches(content, from, pos)
      invariant batch == EntriesBetween(content, from, pos) && lines == LinesBetween(content, from, pos)
      invariant |batch| <= maxRows && seen == Parents(batch) && |seen| <= limit
      invariant !atEnd && (pos == from ==> batch == [])
      decreases |content| - pos
    {
      if pos == |content| {
        atEnd := true;
        break;
      }
      Extends(content, from, pos);
      var lineStart := pos;
      pos := LineEnd(content, lineStart);
      lines := lines + 1;
      var entry := EntryAt(content, lineStart);
      if entry.None? {
        continue;
      }
      if entry.value.parent !in seen {
        if |seen| >= limit {
          lines := lines - 1;
          pos := lineStart;
          break;
        }
        seen := seen + {entry.value.parent};
      }
      OneMoreTitle(batch, entry.value);
      batch := batch + [entry.value];
    }
  }

  lemma Standing(content: string, pos: nat)
    requires pos <= |content|
    ensures Reaches(content, pos, pos) && EntriesBetween(content, pos, pos) == []
            && LinesBetween(content, pos, pos) == 0
  {}

  lemma OneMoreTitle(batch: seq<Candidate>, e: Candidate)
    ensures Parents(batch + [e]) == Parents(batch) + {e.parent}
  {}

  /**
   Reads one batch: exactly the valid entries from the cursor to the new position, within the
   row and title limits, and no fewer than those limits allow.
   */
  method ReadBatch(
    a: Archive, titleBatchSize: int)
    returns (batch: seq<Candidate>, newLine: int, newByte: nat, exhausted: bool)
    ensures a.cursor.exhausted || a.content.None? ==> batch == [] && exhausted
    ensures !a.cursor.exhausted && a.content.Some? && Reaches(a.content.value, 0, a.StartByte()) ==>
              var content, from := a.content.value, a.StartByte();
              var limit := if titleBatchSize < 1 then 1 else titleBatchSize;
              && Reaches(content, from, newByte) && batch == EntriesBetween(content, from, newByte)
              && newLine == a.StartLine() + LinesBetween(content, from, newByte)
              && |batch| <= RowLimit(limit) && |Parents(batch)| <= limit
              && Full(content, batch, newByte, limit)
              && (newByte == from ==> from == |content|)
              && (newByte == |content| && |batch| < RowLimit(limit) ==> exhausted)
              && (exhausted ==> newByte == |content| || (a.total > 0 && newLine >= a.total))
              && (a.total > 0 && newLine >= a.total ==> exhausted)
    ensures a.cursor.exhausted || a.content.None? ==>
              newByte == (if a.cursor.byte < 0 then 0 else a.cursor.byte)
                && newLine == (if a.cursor.line < 0 then 0 else a.cursor.line)
  {
    if a.cursor.exhausted || a.content.None? {
      return [], if a.cursor.line < 0 then 0 else a.cursor.line, if a.cursor.byte < 0 then 0 else a.cursor.byte, true;
    }
    var limit := if titleBatchSize < 1 then 1 else titleBatchSize;
    var fromLine := if a.cursor.line < 0 then 0 else a.cursor.line;
    var fromByte := if a.cursor.byte < 0 then 0 else a.cursor.byte;
    if fromByte > |a.content.value| {
      fromLine, fromByte := 0, 0;
    }
    var lines, atEnd;
    batch, newByte, lines, atEnd := ReadFrom(a.content.value, fromByte, limit);
    newLine := fromLine + lines;
    exhausted := atEnd || (a.total > 0 && newLine >= a.total);
  }
}
