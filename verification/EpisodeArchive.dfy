/** Repeated reading delivers the whole index exactly once, and what is read is what was written. */
module EpisodeArchive {
  import opened Wrappers
  import opened EpisodeLine
  import opened EpisodeCursor

  /** Where reading starts from a cursor: behind the end of the file it starts over. */
  ghost function StartOf(content: string, c: Cursor): nat {
    var byte := if c.byte < 0 then 0 else c.byte;
    if byte > |content| then 0 else byte
  }

  /** The cursor and the line total fit the file, and the scan is exhausted exactly at its end. */
  ghost predicate Fits(content: string, total: int, c: Cursor) {
    && Reaches(content, 0, StartOf(content, c))
    && (if c.byte > |content| || c.line < 0 then 0 else c.line) == LinesBetween(content, 0, StartOf(content, c))
    && Reaches(content, 0, |content|) && total == LinesBetween(content, 0, |content|)
    && (c.exhausted <==> StartOf(content, c) == |content|)
  }

  /**
   One read.  From a consistent archive the batch is what lies up to the cursor that is to be
   committed, that cursor fits the file, and the read got on unless the scan is exhausted.
   */
  method ReadNext(a: Archive, titleBatchSize: int)
    returns (batch: seq<Candidate>, newLine: int, newByte: nat, exhausted: bool)
    ensures newLine >= 0
    ensures a.cursor.exhausted || a.content.None? ==> batch == []
    ensures !a.cursor.exhausted && a.content.Some? && Reaches(a.content.value, 0, a.StartByte()) ==>
              && Reaches(a.content.value, a.StartByte(), newByte)
              && batch == EntriesBetween(a.content.value, a.StartByte(), newByte)
    ensures a.Consistent() && a.content.Some? ==>
              var content, next := a.content.value, Cursor(newLine, newByte, exhausted);
              && Fits(content, a.total, next) && Reaches(content, a.StartByte(), StartOf(content, next))
              && batch == EntriesBetween(content, a.StartByte(), StartOf(content, next))
              && (!exhausted ==> StartOf(content, next) > a.StartByte())
  {
    hide Reaches, EntriesBetween, LinesBetween;
    batch, newLine, newByte, exhausted := ReadBatch(a, titleBatchSize);
    if a.content.Some? && a.Consistent() {
      NextFits(a, batch, newLine, newByte, exhausted);
    }
    newLine := if newLine < 0 then 0 else newLine;
  }

  lemma NextFits(a: Archive, batch: seq<Candidate>, newLine: int, newByte: nat, exhausted: bool)
    requires a.content.Some? && a.Consistent()
    requires if a.cursor.exhausted
             then
               && exhausted && batch == [] && newByte == (if a.cursor.byte < 0 then 0 else a.cursor.byte)
               && newLine == (if a.cursor.line < 0 then 0 else a.cursor.line)
             else
               && Reaches(a.content.value, a.StartByte(), newByte)
               && batch == EntriesBetween(a.content.value, a.StartByte(), newByte)
               && newLine == a.StartLine() + LinesBetween(a.content.value, a.StartByte(), newByte)
               && (newByte == a.StartByte() ==> a.StartByte() == |a.content.value|)
               && (exhausted ==> newByte == |a.content.value| || (a.total > 0 && newLine >= a.total))
               && (a.total > 0 && newLine >= a.total ==> exhausted)
               && (newByte == |a.content.value| && batch == [] ==> exhausted)
    ensures newLine >= 0
    ensures var content, next := a.content.value, Cursor(newLine, newByte, exhausted);
            && Fits(content, a.total, next) && Reaches(content, a.StartByte(), StartOf(content, next))
            && batch == EntriesBetween(content, a.StartByte(), StartOf(content, next))
            && (!exhausted ==> StartOf(content, next) > a.StartByte())
  {
    hide Reaches, EntriesBetween, LinesBetween;
    var content, from := a.content.value, a.StartByte();
    InBounds(content, from);
    if a.cursor.exhausted {
      Standing(content, from);
    } else {
      Concatenates(content, 0, from, newByte);
      InBounds(content, newByte);
      Forward(content, from, newByte);
      EndIsReached(content, newByte);
      Concatenates(content, 0, newByte, |content|);
      NoLines(content, newByte, |content|);
      NoLines(content, from, newByte);
    }
  }

  /** The commit of a cursor that fits leaves the archive consistent. */
  lemma CommittedFits(a: Archive)
    requires a.content.Some? && Fits(a.content.value, a.total, a.cursor)
    ensures a.Consistent() && a.StartByte() == StartOf(a.content.value, a.cursor)
  {
    hide Reaches, LinesBetween;
  }

  /**
   One read and its commit.  The archive stays consistent, the batch is what lies between the
   old and the new cursor, and the scan is exhausted exactly when all lines are consumed.
   */
  method ReadAndCommit(a: Archive, titleBatchSize: int) returns (batch: seq<Candidate>)
    requires a.Consistent() && a.content.Some?
    modifies a`cursor
    ensures a.Consistent() && Reaches(a.content.value, old(a.StartByte()), a.StartByte())
    ensures batch == EntriesBetween(a.content.value, old(a.StartByte()), a.StartByte())
    ensures a.cursor.exhausted <==> a.StartByte() == |a.content.value|
    ensures !a.cursor.exhausted ==> a.StartByte() > old(a.StartByte())
  {
    hide Reaches, EntriesBetween, LinesBetween;
    var newLine, newByte, exhausted;
    batch, newLine, newByte, exhausted := ReadNext(a, titleBatchSize);
    a.Commit(newLine, newByte, exhausted);
    CommittedFits(a);
  }

  lemma NoLines(content: string, from: nat, to: nat)
    requires Reaches(content, from, to)
    ensures LinesBetween(content, from, to) == 0 <==> from == to
    ensures from == to ==> EntriesBetween(content, from, to) == []
  {}

  /** Reads on until the index is exhausted, with a batch size of its own for every cycle. */
  method ReadAll(a: Archive, sizes: nat -> int) returns (delivered: seq<Candidate>)
    requires a.Consistent() && a.content.Some?
    modifies a`cursor
    ensures a.Consistent() && a.cursor.exhausted
    ensures Reaches(a.content.value, old(a.StartByte()), |a.content.value|)
    ensures delivered == EntriesBetween(a.content.value, old(a.StartByte()), |a.content.value|)
  {
    hide Reaches, EntriesBetween, LinesBetween;
    delivered := [];
    var round := 0;
    ghost var content, from := a.content.value, a.StartByte();
    assert Reaches(content, 0, from) && from <= |content| by {
      InBounds(content, from);
    }
    Standing(content, from);
    while !a.cursor.exhausted
      invariant a.Consistent() && a.content == Some(content) && a.StartByte() <= |content|
      invariant Reaches(content, from, a.StartByte()) && delivered == EntriesBetween(content, from, a.StartByte())
      decreases |content| - a.StartByte(), if a.cursor.exhausted then 0 else 1
    {
      ghost var before := a.StartByte();
      var batch := ReadAndCommit(a, sizes(round));
      InBounds(content, a.StartByte());
      Concatenates(content, from, before, a.StartByte());
      delivered := delivered + batch;
      round := round + 1;
    }
  }

  lemma InBounds(content: string, pos: nat)
    requires Reaches(content, 0, pos)
    ensures pos <= |content|
  {}

  // ---------- the writer ----------

  /** The entries a reader can get out of the rows: those whose score did not round to 0.0. */
  ghost function Readable(rows: seq<Row>): seq<Candidate> {
    if rows == [] then []
    else
      var last := rows[|rows| - 1];
      Readable(rows[..|rows| - 1]) + if last.tenths >= 1 then [Parsed(last)] else []
  }

  /** Writes one line per row, and counts them. */
  method WriteIndex(rows: seq<Row>) returns (content: string, total: nat)
    requires forall r <- rows :: Writable(r)
    ensures Reaches(content, 0, |content|)
    ensures EntriesBetween(content, 0, |content|) == Readable(rows)
    ensures total == LinesBetween(content, 0, |content|) == |rows|
  {
    hide Reaches, EntriesBetween, LinesBetween, FormatLine, Writable;
    content, total := "", 0;
    Standing(content, 0);
    for i := 0 to |rows|
      invariant Reaches(content, 0, |content|) && Closed(content)
      invariant EntriesBetween(content, 0, |content|) == Readable(rows[..i])
      invariant total == LinesBetween(content, 0, |content|) == i
    {
      assert rows[i] in rows && rows[..i + 1][..i] == rows[..i];
      LineRoundTrip(rows[i]);
      LineAdded(content, FormatLine(rows[i]));
      content := content + FormatLine(rows[i]) + "\n";
      total := total + 1;
    }
    assert rows[..|rows|] == rows;
  }

  /** The text ends with a line feed, or is empty. */
  ghost predicate Closed(content: string) {
    content == [] || content[|content| - 1] == '\n'
  }

  /** A text after a closed one does not change its lines. */
  lemma {:induction false} PrefixKeeps(content: string, more: string, from: nat)
    requires Closed(content) && Reaches(content, from, |content|)
    ensures Reaches(content + more, from, |content|)
    ensures EntriesBetween(content + more, from, |content|) == EntriesBetween(content, from, |content|)
    ensures LinesBetween(content + more, from, |content|) == LinesBetween(content, from, |content|)
    decreases |content| - from
  {
    if from == |content| {
      Standing(content + more, from);
    } else {
      SameLine(content, more, from);
      var next := LineEnd(content, from);
      assert Reaches(content, next, |content|);
      PrefixKeeps(content, more, next);
      hide LineEnd, EntryAt;
      assert Reaches(content + more, from, |content|);
      Unroll(content, from, |content|);
      Unroll(content + more, from, |content|);
    }
  }

  lemma {:induction false} SameTextEnd(content: string, more: string, pos: nat)
    requires pos <= |content| && TextEnd(content, pos) < |content|
    ensures TextEnd(content + more, pos) == TextEnd(content, pos)
    decreases |content| - pos
  {
    if !IsBreak(content[pos]) {
      SameTextEnd(content, more, pos + 1);
    }
  }

  lemma SameLine(content: string, more: string, pos: nat)
    requires Closed(content) && pos < |content|
    ensures LineEnd(content + more, pos) == LineEnd(content, pos)
    ensures Entry(content + more, pos) == Entry(content, pos)
  {
    var end := TextEnd(content, pos);
    assert end < |content| by {
      assert IsBreak(content[|content| - 1]);
    }
    SameTextEnd(content, more, pos);
    assert (content + more)[pos..end] == content[pos..end];
  }

  lemma {:induction false} TextEndAt(content: string, pos: nat, end: nat)
    requires pos <= end < |content| && IsBreak(content[end]) && forall i :: pos <= i < end ==> !IsBreak(content[i])
    ensures TextEnd(content, pos) == end
    decreases end - pos
  {
    if pos < end {
      TextEndAt(content, pos + 1, end);
    }
  }

  /** Appending a line appends its entry. */
  lemma LineAdded(content: string, line: string)
    requires Closed(content) && Reaches(content, 0, |content|) && Unbroken(line)
    ensures var longer := content + line + "\n";
            && Closed(longer) && Reaches(longer, 0, |longer|)
            && EntriesBetween(longer, 0, |longer|)
               == EntriesBetween(content, 0, |content|)
                  + (if ParseLine(line).Some? then [ParseLine(line).value] else [])
            && LinesBetween(longer, 0, |longer|) == LinesBetween(content, 0, |content|) + 1
  {
    hide Reaches, EntriesBetween, LinesBetween, ParseLine, Unbroken;
    var longer, start := content + line + "\n", |content|;
    assert longer == content + (line + "\n");
    PrefixKeeps(content, line + "\n", 0);
    LastLine(content, line);
    Extends(longer, 0, start);
  }

  lemma LastLine(content: string, line: string)
    requires Unbroken(line)
    ensures var longer := content + line + "\n";
            && LineEnd(longer, |content|) == |longer|
            && Entry(longer, |content|) == (if ParseLine(line).Some? then [ParseLine(line).value] else [])
  {
    hide ParseLine;
    var longer, start := content + line + "\n", |content|;
    assert forall i :: 0 <= i < |line| ==> longer[start + i] == line[i] && line[i] in line;
    forall i | start <= i < start + |line|
      ensures !IsBreak(longer[i])
    {
      assert longer[i] == line[i - start];
    }
    TextEndAt(longer, start, start + |line|);
    assert longer[start..start + |line|] == line;
  }

  /**
   The whole way: rows written by the builder come back from the reader exactly once and in
   order, for any batch size of any cycle; nothing but the scores rounded to 0.0 is lost.
   */
  method WrittenRowsComeBack(rows: seq<Row>, sizes: nat -> int) returns (delivered: seq<Candidate>)
    requires forall r <- rows :: Writable(r)
    ensures delivered == Readable(rows)
  {
    var content, total := WriteIndex(rows);
    Standing(content, 0);
    var archive := new Archive(Some(content), Cursor(0, 0, false), total);
    NoLines(content, 0, |content|);
    archive.Reset(total == 0);
    delivered := ReadAll(archive, sizes);
  }
}
