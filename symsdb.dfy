/**
 * The symbol database as the attach engine of tracer.c sees it. The database
 * itself (symsdb.c) is not part of this model: only the queries tracer.c makes
 * are modelled, over a value that holds their answers.
 */
module Symsdb {

  import opened Wrappers

  type Name = string

  /**
   * MAX_SKB_POS of ipft.h (not part of this model): the number of argument
   * positions an skb pointer may occupy. No proof depends on its value.
   */
  const MAX_SKB_POS: nat := 5

  /** struct ipft_syminfo, reduced to what the core reads: the skb position. */
  datatype SymInfo = SymInfo(name: Name, skbPos: nat)

  /**
   * sym2info: every symbol, in the order symsdb_sym2info_foreach visits them
   * (its length is symsdb_get_sym2info_total).
   * pos2syms: per position, the names symsdb_pos2syms_get(sdb, i, j) returns
   * for j = 0, 1, ...; a position with no entry holds no symbol.
   */
  datatype Db = Db(sym2info: seq<SymInfo>, pos2syms: map<nat, seq<Name>>)

  /** regex_match against the tracer's compiled regex. */
  type Regex = Name -> bool

  /** symsdb_pos2syms_get(sdb, pos, j) for j < symsdb_get_pos2syms_total(sdb, pos). */
  function SymsAt(db: Db, pos: nat): seq<Name>
  {
    if pos in db.pos2syms then db.pos2syms[pos] else []
  }

  /** Number of symbols at positions 0 .. n-1. */
  function CountBelow(db: Db, n: nat): nat
  {
    if n == 0 then 0 else CountBelow(db, n - 1) + |SymsAt(db, n - 1)|
  }

  /**
   * The per-position lists hold as many symbols as the whole database: what
   * the engine relies on for its counters to add up to the total.
   */
  predicate Consistent(db: Db)
  {
    CountBelow(db, MAX_SKB_POS) == |db.sym2info|
  }

  /** The database holds no symbol at all. */
  predicate Empty(db: Db)
  {
    db.sym2info == [] && forall pos :: pos in db.pos2syms ==> db.pos2syms[pos] == []
  }

  /** symsdb_get_sym2info: the first entry with this name, if any. */
  function Find(syms: seq<SymInfo>, name: Name): (r: Option<SymInfo>)
    ensures r.Some? ==> r.value in syms && r.value.name == name
    ensures r.None? ==> forall k :: 0 <= k < |syms| ==> syms[k].name != name
  {
    if syms == [] then None
    else if syms[0].name == name then Some(syms[0])
    else Find(syms[1..], name)
  }

  function Lookup(db: Db, name: Name): Option<SymInfo>
  {
    Find(db.sym2info, name)
  }

  /** The names the regex accepts, in their original order. */
  function Filter(re: Regex, names: seq<Name>): (r: seq<Name>)
    ensures |r| <= |names|
  {
    if names == [] then []
    else
      var init := names[..|names| - 1];
      var last := names[|names| - 1];
      assert names == init + [last];
      Filter(re, init) + (if re(last) then [last] else [])
  }
}
