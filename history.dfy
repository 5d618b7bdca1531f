/** The undo/redo log as values: the entries of `historyRef.current` and the
    cursor `historyIndexRef.current`. The class in module Editor updates its
    fields exactly as these functions say. */
module History {
  import opened Shapes

  /** A linear log of board snapshots. Cursor -1 is the empty board that
      precedes the first entry. */
  datatype Log = Log(entries: seq<Board>, cursor: int)

  predicate InRange(log: Log)
  {
    -1 <= log.cursor < |log.entries|
  }

  /** The invariant every operation of the editor keeps: the cursor is in
      range and no entry is an empty board. */
  predicate WellFormed(log: Log)
  {
    InRange(log) && forall i :: 0 <= i < |log.entries| ==> log.entries[i] != []
  }

  /** The board the cursor designates: empty before the first entry. */
  function Live(log: Log): Board
    requires InRange(log)
  {
    if log.cursor < 0 then [] else log.entries[log.cursor]
  }

  /** The entry under the cursor exists and matches the candidate under
      SameBoard. With cursor -1 there is no entry, so nothing is a duplicate. */
  predicate IsDuplicate(log: Log, next: Board)
    requires InRange(log)
  {
    0 <= log.cursor && SameBoard(log.entries[log.cursor], next)
  }

  /** snapshotHistory: skip a duplicate; otherwise drop every entry after the
      cursor, append the candidate unless it is empty, and move the cursor to
      the last entry. */
  function Record(log: Log, next: Board): (r: Log)
    requires InRange(log)
    ensures InRange(r)
    ensures IsDuplicate(log, next) ==> r == log
    ensures !IsDuplicate(log, next) ==>
      && |r.entries| == log.cursor + 1 + (if next == [] then 0 else 1)
      && r.entries[..log.cursor + 1] == log.entries[..log.cursor + 1]
      && r.cursor == |r.entries| - 1
      && (next != [] ==> Live(r) == next)
      && (next == [] ==> Live(r) == Live(log))
  {
    if IsDuplicate(log, next) then log
    else
      var kept := if log.cursor < |log.entries| - 1 then log.entries[..log.cursor + 1] else log.entries;
      var entries := if |next| > 0 then kept + [next] else kept;
      Log(entries, |entries| - 1)
  }

  /** undo: step the cursor back, but never below -1. */
  function Undo(log: Log): (r: Log)
    requires InRange(log)
    ensures InRange(r) && r.entries == log.entries
    ensures log.cursor == -1 ==> r == log
    ensures log.cursor >= 0 ==> r.cursor == log.cursor - 1
  {
    if log.cursor > -1 then log.(cursor := log.cursor - 1) else log
  }

  /** redo: step the cursor forward unless it is already at the last entry. */
  function Redo(log: Log): (r: Log)
    requires InRange(log)
    ensures InRange(r) && r.entries == log.entries
    ensures log.cursor == |log.entries| - 1 ==> r == log
    ensures log.cursor < |log.entries| - 1 ==> r.cursor == log.cursor + 1
  {
    if log.cursor >= |log.entries| - 1 then log else log.(cursor := log.cursor + 1)
  }

  /** Recording keeps the log well formed: no empty entry is ever stored. */
  lemma RecordPreservesWellFormed(log: Log, next: Board)
    requires WellFormed(log)
    ensures WellFormed(Record(log, next))
  {
  }

  /** After a recorded change there is nothing left to redo: the redo branch
      that followed the old cursor is gone. */
  lemma RecordDiscardsRedoBranch(log: Log, next: Board)
    requires InRange(log)
    requires !IsDuplicate(log, next)
    ensures Redo(Record(log, next)) == Record(log, next)
    ensures Record(log, next).entries[log.cursor + 1..] == (if next == [] then [] else [next])
  {
  }

  /** Recording the same board twice stores it once. */
  lemma RecordIdempotent(log: Log, next: Board)
    requires WellFormed(log)
    ensures Record(Record(log, next), next) == Record(log, next)
  {
    var r := Record(log, next);
    if !IsDuplicate(log, next) {
      if next != [] {
        assert r.entries[r.cursor] == next;
        assert IsDuplicate(r, next);
      } else {
        assert r.entries[..r.cursor + 1] == r.entries;
      }
    }
  }

  /** Recording the board the cursor already shows changes nothing: ending a
      drag that did not move anything leaves the log as it was. */
  lemma RecordLiveIsNoOp(log: Log)
    requires InRange(log) && log.cursor >= 0
    ensures Record(log, Live(log)) == log
  {
  }

  /** Undo followed by redo returns to the log before the undo, whenever there
      was something to undo. */
  lemma RedoAfterUndo(log: Log)
    requires InRange(log) && log.cursor >= 0
    ensures Redo(Undo(log)) == log
    ensures Live(Undo(log)) == (if log.cursor == 0 then [] else log.entries[log.cursor - 1])
  {
  }

  /** Undo right after a recorded commit shows the board from before the
      commit, and redo brings the commit back. */
  lemma UndoAfterRecord(log: Log, next: Board)
    requires WellFormed(log)
    requires next != [] && !IsDuplicate(log, next)
    ensures Live(Undo(Record(log, next))) == Live(log)
    ensures Redo(Undo(Record(log, next))) == Record(log, next)
  {
  }

  /** `n` consecutive undos. */
  function UndoTimes(log: Log, n: nat): (r: Log)
    requires InRange(log)
    ensures InRange(r) && r.entries == log.entries
    decreases n
  {
    if n == 0 then log else UndoTimes(Undo(log), n - 1)
  }

  /** Undoing at least cursor + 1 times reaches the empty board and stays
      there; the entries are never touched. */
  lemma {:induction false} UndoPastOriginEmpties(log: Log, n: nat)
    requires InRange(log)
    requires n > log.cursor
    ensures UndoTimes(log, n).cursor == -1
    ensures Live(UndoTimes(log, n)) == []
    decreases n
  {
    if n > 0 {
      UndoPastOriginEmpties(Undo(log), n - 1);
    }
  }

  /** Commit A, commit B, undo, commit C: B's slot now holds C, nothing
      follows it, and redo is a no-op. */
  lemma CommitAfterUndoDropsBranch(log: Log, a: Board, b: Board, c: Board)
    requires WellFormed(log)
    requires a != [] && b != [] && c != []
    requires !IsDuplicate(log, a)
    requires !IsDuplicate(Record(log, a), b)
    requires !IsDuplicate(Undo(Record(Record(log, a), b)), c)
    ensures var l1 := Record(log, a);
            var l4 := Record(Undo(Record(l1, b)), c);
            && l4.entries == l1.entries + [c]
            && Live(l4) == c
            && Redo(l4) == l4
  {
  }

  /** Recording an empty board that is not a duplicate keeps every entry up to
      the cursor and drops the rest, leaving the live board unchanged. This is
      what the mount-time snapshot of [] does to a restored log. */
  lemma EmptyRecordTruncates(log: Log)
    requires WellFormed(log)
    ensures Record(log, []) == Log(log.entries[..log.cursor + 1], log.cursor)
    ensures Live(Record(log, [])) == Live(log)
  {
  }

  /** Recording a board that carries the live board's ids, in order, leaves
      that board under the cursor, whether the record is skipped as a
      duplicate, stores it, or (for an empty board) only truncates. This is
      what keeps the drawn board and the log together at the end of a drag
      and after a restyle. */
  lemma RecordKeepsBoardWithLiveIds(log: Log, next: Board)
    requires WellFormed(log)
    requires Ids(next) == Ids(Live(log))
    ensures Live(Record(log, next)) == next
  {
    assert |next| == |Ids(next)| == |Ids(Live(log))| == |Live(log)|;
    if IsDuplicate(log, next) {
      SameBoardWithSameIdsIsEqual(Live(log), next);
    }
  }

  /** Recording the live board with one shape appended stores it: it cannot
      be a duplicate, since it is one shape longer. */
  lemma RecordAppendShowsBoard(log: Log, s: Shape)
    requires InRange(log)
    ensures Live(Record(log, Live(log) + [s])) == Live(log) + [s]
    ensures !IsDuplicate(log, Live(log) + [s])
  {
  }
}
