/** The normalisation the restore effect applies to an already-parsed saved
    state. Reading and writing the key-value store and JSON parsing are not
    modelled; the saved `shapes` mirror is never read back by the source and
    is not modelled either. */
module Persistence {
  import opened Shapes
  import History

  /** The parsed value: `history` and `index` may each be absent. */
  datatype Saved = Saved(history: Option<seq<Board>>, index: Option<int>)

  /** What the restore effect leaves behind. `board` is None where the source
      would set the live board to `undefined` (a cursor past the last entry). */
  datatype Restored = Restored(entries: seq<Board>, cursor: int, board: Option<Board>)

  /** The filter that drops empty snapshots, keeping the order of the rest. */
  function NonEmpty(raw: seq<Board>): (r: seq<Board>)
    ensures |r| <= |raw|
    ensures forall i :: 0 <= i < |r| ==> r[i] != [] && r[i] in raw
    ensures forall b :: b in raw && b != [] ==> b in r
    ensures (forall i :: 0 <= i < |raw| ==> raw[i] != []) ==> r == raw
  {
    if raw == [] then []
    else
      var rest := NonEmpty(raw[1..]);
      assert forall b :: b in raw[1..] ==> b in raw;
      assert forall b :: b in raw ==> b == raw[0] || b in raw[1..];
      if raw[0] != [] then [raw[0]] + rest else rest
  }

  /** The filter keeps a non-empty snapshot and drops an empty one. */
  lemma NonEmptySingleton(b: Board)
    ensures NonEmpty([b]) == (if b == [] then [] else [b])
  {
  }

  /** The filter works piece by piece: filtering a concatenation is
      concatenating the filtered pieces. With NonEmptySingleton this fixes
      the result entirely: the non-empty snapshots, each once, in their saved
      order. */
  lemma {:induction false} NonEmptyAppend(a: seq<Board>, b: seq<Board>)
    ensures NonEmpty(a + b) == NonEmpty(a) + NonEmpty(b)
    decreases |a|
  {
    if a != [] {
      assert (a + b)[1..] == a[1..] + b;
      NonEmptyAppend(a[1..], b);
    } else {
      assert a + b == b;
    }
  }

  /** The filter keeps exactly the non-empty snapshots, each as many times as
      it was saved. */
  lemma {:induction false} NonEmptyCounts(raw: seq<Board>)
    ensures multiset(NonEmpty(raw)) == multiset(raw)[[] := 0]
    decreases |raw|
  {
    if raw != [] {
      NonEmptyCounts(raw[1..]);
      assert raw == [raw[0]] + raw[1..];
      assert multiset(raw) == multiset([raw[0]]) + multiset(raw[1..]);
    }
  }

  /** The restore effect: history defaults to [], empty snapshots are dropped,
      the cursor defaults to -1 and is taken as it is, and the live board is
      the entry under a non-negative cursor, otherwise empty. The source's
      "pop a trailing empty snapshot and clamp the cursor" step is left out
      because its guard never holds after the filter (TrailingPopUnreachable). */
  function Normalize(saved: Saved): (r: Restored)
    ensures r.entries == NonEmpty(if saved.history.Some? then saved.history.value else [])
    ensures forall i :: 0 <= i < |r.entries| ==> r.entries[i] != []
    ensures r.cursor == (if saved.index.Some? then saved.index.value else -1)
    ensures r.cursor < 0 ==> r.board == Some([])
    ensures 0 <= r.cursor < |r.entries| ==> r.board == Some(r.entries[r.cursor])
    ensures r.cursor >= |r.entries| ==> r.board.None?
  {
    var entries := NonEmpty(if saved.history.Some? then saved.history.value else []);
    var cursor := if saved.index.Some? then saved.index.value else -1;
    var board := if cursor >= 0 then (if cursor < |entries| then Some(entries[cursor]) else None) else Some([]);
    Restored(entries, cursor, board)
  }

  /** The guard of the trailing-pop step is never true: after the filter the
      last snapshot is never empty. */
  lemma TrailingPopUnreachable(raw: seq<Board>)
    ensures !(|NonEmpty(raw)| > 0 && NonEmpty(raw)[|NonEmpty(raw)| - 1] == [])
  {
  }

  /** The state saved from a well-formed log restores to the same log and the
      same live board. */
  lemma SaveRestoreRoundTrip(log: History.Log)
    requires History.WellFormed(log)
    ensures Normalize(Saved(Some(log.entries), Some(log.cursor)))
         == Restored(log.entries, log.cursor, Some(History.Live(log)))
  {
  }

  /** Nothing saved, or nothing but empty snapshots and no index: the board
      starts empty with an empty log. */
  lemma {:induction false} EmptySaveRestoresEmpty(raw: seq<Board>)
    requires forall i :: 0 <= i < |raw| ==> raw[i] == []
    ensures Normalize(Saved(Some(raw), None)) == Restored([], -1, Some([]))
    decreases |raw|
  {
    if raw != [] {
      EmptySaveRestoresEmpty(raw[1..]);
    }
  }
}
