/** How the gateway turns the rows a statement returned into the value it
    resolves to. The database itself is a black box that yields a row sequence. */
module Results {
  import opened Values

  /** `result.rows.length > 0 ? result.rows[0] : null`: the single-row getters
      (`getUserWithEmail`, `getUserWithId`, `addUser`). */
  function FirstOrNull<R>(rows: seq<R>): (r: Option<R>)
    ensures r.None? <==> rows == []
    ensures r.Some? ==> r.value in rows
  {
    if |rows| > 0 then Some(rows[0]) else None
  }

  /** `result.rows.length > 0 ? result.rows : null`: `getAllReservations`. */
  function RowsOrNull<R>(rows: seq<R>): (r: Option<seq<R>>)
    ensures r.None? <==> rows == []
    ensures r != Some([])
  {
    if |rows| > 0 then Some(rows) else None
  }

  /** A single-row getter answers with the row every later row comes after:
      rows beyond the first never change its answer. */
  lemma FirstOrNullIgnoresLaterRows<R>(rows: seq<R>, later: seq<R>)
    requires rows != []
    ensures FirstOrNull(rows + later) == FirstOrNull(rows) == Some(rows[0])
  {
  }

  /** The two mappings agree: the single-row answer is the head of the
      list answer, and both are `null` on the same inputs. */
  lemma FirstOrNullIsHeadOfRowsOrNull<R>(rows: seq<R>)
    ensures FirstOrNull(rows) == match RowsOrNull(rows)
                                  case None => None
                                  case Some(rs) => Some(rs[0])
  {
  }

  /** The list mapping loses nothing: a non-empty answer is all of the rows, in order. */
  lemma RowsOrNullKeepsAllRows<R>(rows: seq<R>)
    ensures RowsOrNull(rows).Some? ==> RowsOrNull(rows).value == rows
  {
  }
}
