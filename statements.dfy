/** Statement texts with positional placeholders. A text is a sequence of SQL
    fragments and placeholders `$k`; the driver binds `$k` to the k-th value
    of the parameter list. Fragments keep the source's words with its line
    breaks and indentation folded to single spaces. */
module Statements {
  import opened Values

  datatype Piece =
    | Sql(text: string)
      /** `$index` */
    | Slot(index: nat)
      /** `$first, $first+1, ..., $last`, as in a VALUES or IN list */
    | Tuple(first: nat, last: nat)

  /** The placeholder indices one piece cites, left to right. */
  function PieceSlots(p: Piece): seq<int> {
    match p
    case Sql(_) => []
    case Slot(k) => [k]
    case Tuple(first, last) => if first <= last then seq(last - first + 1, i => first + i) else []
  }

  /** The placeholder indices a text cites, left to right. */
  function Slots(text: seq<Piece>): seq<int> {
    if text == [] then [] else PieceSlots(text[0]) + Slots(text[1..])
  }

  /** `[1, 2, ..., n]` */
  function Positions(n: nat): seq<int> {
    seq(n, i => i + 1)
  }

  /** Placeholder `$k` is bound to `v`. */
  predicate Cites(params: seq<Param>, k: int, v: Param) {
    1 <= k <= |params| && params[k - 1] == v
  }

  /** The text cites `$1`, `$2`, ..., `$n` in that order, `n` being the number
      of parameters: every placeholder names a bound value and every bound
      value is named exactly once. */
  predicate TextAligned(text: seq<Piece>, params: seq<Param>) {
    Slots(text) == Positions(|params|)
  }

  /** The index of the placeholder that directly follows fragment `sql`, or 0
      (which names no value) when no placeholder does. */
  function SlotAfter(text: seq<Piece>, sql: string): (k: nat)
    ensures k != 0 ==> k in Slots(text)
  {
    if |text| < 2 then 0
    else if text[0] == Sql(sql) && text[1].Slot? then text[1].index
    else SlotAfter(text[1..], sql)
  }

  /** A fragment, the tuple `$1, ..., $n` and a closing fragment cite
      `$1 .. $n` in order. */
  lemma ValuesTextSlots(head: string, n: nat, tail: string)
    ensures Slots([Sql(head), Tuple(1, n), Sql(tail)]) == Positions(n)
  {
    var t := [Sql(head), Tuple(1, n), Sql(tail)];
    assert t[1..][1..][1..] == [];
    assert Slots(t[1..][1..]) == [];
    assert Slots(t[1..]) == PieceSlots(Tuple(1, n));
  }
}
