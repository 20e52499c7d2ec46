/**
 * list_functions of utils.c: print a header, then every symbol of the symbol
 * database that the regex accepts, position by position.
 */
module Listing {

  /** struct ipft_sym, reduced to what the listing prints. */
  datatype Sym = Sym(symname: string, addr: nat)

  /**
   * The database as the listing queries it: symsdb_get_syms_by_pos(sdb, i)
   * and symsdb_get_syms_total_by_pos(sdb, i). A position with no entry is one
   * for which the array is NULL.
   */
  datatype Db = Db(byPos: map<nat, seq<Sym>>)

  /**
   * A line of the listing: the header (to stderr) or one symbol row (to
   * stdout), which prints the name column, the symbol's address and the
   * position.
   */
  datatype Line = Header | Row(name: string, sym: Sym, pos: nat)

  /** The "%64.64s" precision: at most the first 64 characters of the name are printed. */
  const NAME_WIDTH: nat := 64

  /** The name column of a row. */
  function NameField(sym: Sym): (f: string)
    ensures |f| <= NAME_WIDTH
    ensures f <= sym.symname
    ensures |sym.symname| <= NAME_WIDTH ==> f == sym.symname
  {
    if |sym.symname| <= NAME_WIDTH then sym.symname else sym.symname[..NAME_WIDTH]
  }

  /** The rows for the symbols syms, all at position pos, in order. */
  function Matches(re: string -> bool, syms: seq<Sym>, pos: nat): seq<Line>
  {
    if syms == [] then []
    else
      var init := syms[..|syms| - 1];
      var last := syms[|syms| - 1];
      Matches(re, init, pos) + (if re(last.symname) then [Row(NameField(last), last, pos)] else [])
  }

  /** The rows of one position: none when its array is NULL. */
  function RowsAt(db: Db, re: string -> bool, pos: nat): seq<Line>
  {
    if pos in db.byPos then Matches(re, db.byPos[pos], pos) else []
  }

  /** The rows of positions 0 .. n-1, in order. */
  function RowsBelow(db: Db, re: string -> bool, n: nat): seq<Line>
  {
    if n == 0 then [] else RowsBelow(db, re, n - 1) + RowsAt(db, re, n - 1)
  }

  /**
   * list_functions. regexRc and sdbRc are what regex_create and
   * symsdb_create return; maxSkbPos is get_max_skb_pos_for_backend of the
   * chosen backend; out is what is printed, in order.
   */
  method ListFunctions(regexRc: int, sdbRc: int, db: Db, re: string -> bool, maxSkbPos: nat)
    returns (rc: int, out: seq<Line>)
    ensures rc == 0 || rc == -1
    ensures rc == -1 <==> regexRc == -1 || sdbRc == -1
    ensures rc == -1 ==> out == []
    ensures rc == 0 ==> out == [Header] + RowsBelow(db, re, maxSkbPos)
  {
    if regexRc == -1 {
      return -1, [];
    }
    if sdbRc == -1 {
      return -1, [];
    }
    out := [Header];
    for i := 0 to maxSkbPos
      invariant out == [Header] + RowsBelow(db, re, i)
    {
      if i !in db.byPos {
        assert RowsBelow(db, re, i + 1) == RowsBelow(db, re, i) + [];
        continue;
      }
      var rows := ListPosition(re, db.byPos[i], i);
      assert RowsBelow(db, re, i + 1) == RowsBelow(db, re, i) + rows;
      out := out + rows;
    }
    return 0, out;
  }

  /** The inner loop of list_functions: the rows for the symbols of position pos. */
  method ListPosition(re: string -> bool, syms: seq<Sym>, pos: nat) returns (rows: seq<Line>)
    ensures rows == Matches(re, syms, pos)
  {
    rows := [];
    for j := 0 to |syms|
      invariant rows == Matches(re, syms[..j], pos)
    {
      var sym := syms[j];
      assert syms[..j + 1][..j] == syms[..j];
      if re(sym.symname) {
        rows := rows + [Row(NameField(sym), sym, pos)];
      }
    }
    assert syms[..|syms|] == syms;
  }

  // ---------------------------------------------------------------------
  // Properties

  /**
   * The indices j of the array whose symbols the regex accepts, in the
   * increasing order the inner loop visits them.
   */
  function AcceptedIndices(re: string -> bool, syms: seq<Sym>): (ix: seq<nat>)
    ensures forall a :: 0 <= a < |ix| ==> ix[a] < |syms|
    ensures forall a, b :: 0 <= a < b < |ix| ==> ix[a] < ix[b]
    ensures forall k: nat :: k in ix <==> k < |syms| && re(syms[k].symname)
  {
    if syms == [] then []
    else
      var n := |syms| - 1;
      AcceptedIndices(re, syms[..n]) + (if re(syms[n].symname) then [n] else [])
  }

  /**
   * The rows of one position follow the array: one row per accepted entry
   * (a symbol listed twice gets two rows), in increasing index order.
   */
  lemma {:induction false} MatchesInArrayOrder(re: string -> bool, syms: seq<Sym>, pos: nat)
    ensures |Matches(re, syms, pos)| == |AcceptedIndices(re, syms)|
    ensures forall k :: 0 <= k < |Matches(re, syms, pos)| ==>
      AcceptedIndices(re, syms)[k] < |syms| &&
      Matches(re, syms, pos)[k] == Row(NameField(syms[AcceptedIndices(re, syms)[k]]), syms[AcceptedIndices(re, syms)[k]], pos)
    decreases |syms|
  {
    if syms != [] {
      var n := |syms| - 1;
      var init := syms[..n];
      MatchesInArrayOrder(re, init, pos);
      var ix := AcceptedIndices(re, init);
      var rows := Matches(re, init, pos);
      forall k | 0 <= k < |rows|
        ensures ix[k] < |init| && init[ix[k]] == syms[ix[k]]
      {
        assert ix[k] in ix;
      }
    }
  }

  /** Every row of Matches is one of the symbols the regex accepts, at pos, and each accepted symbol has one. */
  lemma {:induction false} MatchesIff(re: string -> bool, syms: seq<Sym>, pos: nat, l: Line)
    ensures l in Matches(re, syms, pos) <==>
      l.Row? && l.pos == pos && l.sym in syms && re(l.sym.symname) && l.name == NameField(l.sym)
    decreases |syms|
  {
    if syms != [] {
      var init := syms[..|syms| - 1];
      var last := syms[|syms| - 1];
      assert syms == init + [last];
      assert l.Row? ==> (l.sym in syms <==> l.sym in init || l.sym == last);
      MatchesIff(re, init, pos, l);
    }
  }

  /**
   * A row (sym, pos) is printed exactly when pos is below the backend's
   * maximum, the array of pos is not NULL, it holds sym, and the regex
   * accepts sym's name; its name column is then NameField(sym). The header
   * is never among the rows.
   */
  lemma {:induction false} RowIffMatch(db: Db, re: string -> bool, n: nat, l: Line)
    ensures l in RowsBelow(db, re, n) <==> Listed(db, re, n, l)
    decreases n
  {
    if n > 0 {
      var before := RowsBelow(db, re, n - 1);
      var here := RowsAt(db, re, n - 1);
      RowIffMatch(db, re, n - 1, l);
      RowsAtIff(db, re, n - 1, l);
      assert RowsBelow(db, re, n) == before + here;
      assert Listed(db, re, n, l) <==> Listed(db, re, n - 1, l) || l in here;
    }
  }

  /**
   * The row (sym, pos) belongs in a listing of positions 0 .. n-1: pos is
   * below n, the array of pos is not NULL, it holds sym, the regex accepts
   * sym's name, and the name column is sym's name cut to the column width.
   */
  predicate Listed(db: Db, re: string -> bool, n: nat, l: Line)
  {
    l.Row? && l.pos < n && l.pos in db.byPos && l.sym in db.byPos[l.pos] && re(l.sym.symname)
    && l.name == NameField(l.sym)
  }

  /** The rows of one position are the accepted symbols of its array, if it has one. */
  lemma RowsAtIff(db: Db, re: string -> bool, pos: nat, l: Line)
    ensures l in RowsAt(db, re, pos) <==>
      l.Row? && l.pos == pos && pos in db.byPos && l.sym in db.byPos[pos] && re(l.sym.symname)
      && l.name == NameField(l.sym)
  {
    if pos in db.byPos {
      MatchesIff(re, db.byPos[pos], pos, l);
    }
  }

  /** All rows of Matches carry position pos. */
  lemma {:induction false} MatchesAtPos(re: string -> bool, syms: seq<Sym>, pos: nat)
    ensures forall k :: 0 <= k < |Matches(re, syms, pos)| ==>
      Matches(re, syms, pos)[k].Row? && Matches(re, syms, pos)[k].pos == pos
    decreases |syms|
  {
    if syms != [] {
      MatchesAtPos(re, syms[..|syms| - 1], pos);
    }
  }

  /** The rows are rows, ordered by position, and all below n. */
  lemma {:induction false} RowsOrdered(db: Db, re: string -> bool, n: nat)
    ensures forall k :: 0 <= k < |RowsBelow(db, re, n)| ==>
      RowsBelow(db, re, n)[k].Row? && RowsBelow(db, re, n)[k].pos < n
    ensures forall a, b :: 0 <= a < b < |RowsBelow(db, re, n)| ==>
      RowsBelow(db, re, n)[a].pos <= RowsBelow(db, re, n)[b].pos
    decreases n
  {
    if n > 0 {
      RowsOrdered(db, re, n - 1);
      var before := RowsBelow(db, re, n - 1);
      var here := RowsAt(db, re, n - 1);
      if n - 1 in db.byPos {
        MatchesAtPos(re, db.byPos[n - 1], n - 1);
      }
      assert forall k :: 0 <= k < |here| ==> here[k].Row? && here[k].pos == n - 1;
      var rows := before + here;
      forall k | 0 <= k < |rows|
        ensures rows[k].Row? && rows[k].pos < n
      {
        if k < |before| {
          assert rows[k] == before[k];
        } else {
          assert rows[k] == here[k - |before|];
        }
      }
      forall a, b | 0 <= a < b < |rows|
        ensures rows[a].Row? && rows[b].Row? && rows[a].pos <= rows[b].pos
      {
        if b < |before| {
          assert rows[a] == before[a] && rows[b] == before[b];
        } else if a < |before| {
          assert rows[a] == before[a] && rows[b] == here[b - |before|];
        } else {
          assert rows[a] == here[a - |before|] && rows[b] == here[b - |before|];
        }
      }
    }
  }

  /** A successful listing prints the header once, first, and nothing else but rows. */
  lemma HeaderOnce(db: Db, re: string -> bool, n: nat)
    ensures var out := [Header] + RowsBelow(db, re, n);
      out[0] == Header && forall k :: 0 < k < |out| ==> out[k].Row?
  {
    RowsOrdered(db, re, n);
  }
}
