/**
 * ftrace_set_init_target of tracer.c: before the ftrace object is loaded,
 * every entry/exit program pair either is switched off (its position has no
 * symbol) or gets its position's first symbol as attach target.
 */
module InitTarget {
  import opened Wrappers
  import opened Symsdb
  import opened Libbpf

  /** The load-time settings of one bpf_program. */
  datatype ProgConfig = ProgConfig(autoload: bool, target: Option<Name>)

  type Progs = map<ProgName, ProgConfig>

  /**
   * setTarget(p, sym) is what bpf_program__set_attach_target(p, 0, sym)
   * returns; it changes the program's target only when it returns 0.
   */
  type SetTarget = (ProgName, Name) -> int

  /** What the pass returns and the programs it leaves. */
  datatype InitResult = InitResult(rc: int, progs: Progs)

  /** The opened bpf_object: its programs by name. */
  class BpfObject {
    var progs: Progs

    constructor (progs: Progs)
      ensures this.progs == progs
    {
      this.progs := progs;
    }
  }

  function SetAttachTarget(progs: Progs, p: ProgName, sym: Name, rc: int): Progs
    requires p in progs
  {
    if rc == 0 then progs[p := progs[p].(target := Some(sym))] else progs
  }

  function SetAutoloadOff(progs: Progs, p: ProgName): Progs
    requires p in progs
  {
    progs[p := progs[p].(autoload := false)]
  }

  /** One iteration of the position loop, for position i. */
  function InitAt(db: Db, setTarget: SetTarget, progs: Progs, i: nat): InitResult
  {
    if Main(i) !in progs || MainReturn(i) !in progs then InitResult(-1, progs)
    else
      var syms := SymsAt(db, i);
      if syms == [] then
        InitResult(0, SetAutoloadOff(SetAutoloadOff(progs, Main(i)), MainReturn(i)))
      else
        var r1 := setTarget(Main(i), syms[0]);
        var p1 := SetAttachTarget(progs, Main(i), syms[0], r1);
        if r1 == -1 then InitResult(-1, p1)
        else
          var r2 := setTarget(MainReturn(i), syms[0]);
          InitResult(if r2 == -1 then -1 else 0, SetAttachTarget(p1, MainReturn(i), syms[0], r2))
  }

  /** The position loop from position i to MAX_SKB_POS - 1; -1 ends it. */
  function InitFrom(db: Db, setTarget: SetTarget, progs: Progs, i: nat): InitResult
    decreases MAX_SKB_POS - i
  {
    if i >= MAX_SKB_POS then InitResult(0, progs)
    else
      var r := InitAt(db, setTarget, progs, i);
      if r.rc == -1 then r else InitFrom(db, setTarget, r.progs, i + 1)
  }

  method FtraceSetInitTarget(bpf: BpfObject, db: Db, setTarget: SetTarget) returns (rc: int)
    modifies bpf
    ensures InitResult(rc, bpf.progs) == InitFrom(db, setTarget, old(bpf.progs), 0)
  {
    for i := 0 to MAX_SKB_POS
      invariant InitFrom(db, setTarget, old(bpf.progs), 0) == InitFrom(db, setTarget, bpf.progs, i)
    {
      // sprintf of "ipft_main%d" and "ipft_main_return%d" cannot fail here
      ghost var step := InitAt(db, setTarget, bpf.progs, i);
      assert InitFrom(db, setTarget, bpf.progs, i) ==
        if step.rc == -1 then step else InitFrom(db, setTarget, step.progs, i + 1);
      if Main(i) !in bpf.progs || MainReturn(i) !in bpf.progs {
        return -1;
      }
      var sym := SymsAt(db, i);
      if sym == [] {
        bpf.progs := SetAutoloadOff(bpf.progs, Main(i));
        bpf.progs := SetAutoloadOff(bpf.progs, MainReturn(i));
        assert step == InitResult(0, bpf.progs);
        continue;
      }
      var error := setTarget(Main(i), sym[0]);
      bpf.progs := SetAttachTarget(bpf.progs, Main(i), sym[0], error);
      if error == -1 {
        assert step == InitResult(-1, bpf.progs);
        return -1;
      }
      error := setTarget(MainReturn(i), sym[0]);
      bpf.progs := SetAttachTarget(bpf.progs, MainReturn(i), sym[0], error);
      if error == -1 {
        assert step == InitResult(-1, bpf.progs);
        return -1;
      }
      assert step == InitResult(0, bpf.progs);
    }
    return 0;
  }

  // ---------------------------------------------------------------------
  // Properties

  /** A program of one of the positions i .. MAX_SKB_POS - 1. */
  predicate AtPositionFrom(p: ProgName, i: nat)
  {
    (p.Main? || p.MainReturn?) && i <= p.pos < MAX_SKB_POS
  }

  /**
   * The settings a successful pass from position i gives program p: off when
   * its position has no symbol, else targeted at the position's first symbol
   * (when set_attach_target returns 0); programs of other positions, and
   * those of the user module, keep theirs.
   */
  function Expected(db: Db, setTarget: SetTarget, progs: Progs, i: nat, p: ProgName): ProgConfig
    requires p in progs
  {
    if AtPositionFrom(p, i) then
      var syms := SymsAt(db, p.pos);
      if syms == [] then progs[p].(autoload := false)
      else if setTarget(p, syms[0]) == 0 then progs[p].(target := Some(syms[0]))
      else progs[p]
    else progs[p]
  }

  /** Every pass keeps the set of programs, whatever it returns. */
  lemma {:induction false} InitFromKeepsPrograms(db: Db, setTarget: SetTarget, progs: Progs, i: nat)
    ensures InitFrom(db, setTarget, progs, i).progs.Keys == progs.Keys
    decreases MAX_SKB_POS - i
  {
    if i < MAX_SKB_POS {
      var r := InitAt(db, setTarget, progs, i);
      InitAtSucceedsIff(db, setTarget, progs, i);
      if r.rc != -1 {
        InitFromKeepsPrograms(db, setTarget, r.progs, i + 1);
      }
    }
  }

  /**
   * Position j does not stop the pass: both its programs exist and, when it
   * has a first symbol, set_attach_target returns -1 for neither.
   */
  predicate PositionOk(db: Db, setTarget: SetTarget, keys: set<ProgName>, j: nat)
  {
    Main(j) in keys && MainReturn(j) in keys &&
    (SymsAt(db, j) != [] ==>
      setTarget(Main(j), SymsAt(db, j)[0]) != -1 && setTarget(MainReturn(j), SymsAt(db, j)[0]) != -1)
  }

  /** The pass returns 0 exactly when every position from i on is PositionOk, else -1. */
  lemma {:induction false} InitFromSucceedsIff(db: Db, setTarget: SetTarget, progs: Progs, i: nat)
    ensures InitFrom(db, setTarget, progs, i).rc == 0 || InitFrom(db, setTarget, progs, i).rc == -1
    ensures InitFrom(db, setTarget, progs, i).rc == 0 <==>
      forall j :: i <= j < MAX_SKB_POS ==> PositionOk(db, setTarget, progs.Keys, j)
    decreases MAX_SKB_POS - i
  {
    if i < MAX_SKB_POS {
      var r := InitAt(db, setTarget, progs, i);
      InitAtSucceedsIff(db, setTarget, progs, i);
      if r.rc == -1 {
        assert InitFrom(db, setTarget, progs, i) == r;
        assert !PositionOk(db, setTarget, progs.Keys, i);
      } else {
        assert InitFrom(db, setTarget, progs, i) == InitFrom(db, setTarget, r.progs, i + 1);
        InitFromSucceedsIff(db, setTarget, r.progs, i + 1);
        var keys := progs.Keys;
        assert (forall j :: i <= j < MAX_SKB_POS ==> PositionOk(db, setTarget, keys, j)) <==>
          PositionOk(db, setTarget, keys, i) && forall j :: i + 1 <= j < MAX_SKB_POS ==> PositionOk(db, setTarget, keys, j);
      }
    }
  }

  /** One position step returns 0 exactly when the position is PositionOk, else -1; it keeps the set of programs. */
  lemma InitAtSucceedsIff(db: Db, setTarget: SetTarget, progs: Progs, i: nat)
    ensures var r := InitAt(db, setTarget, progs, i);
      (r.rc == 0 || r.rc == -1) && r.progs.Keys == progs.Keys &&
      (r.rc == 0 <==> PositionOk(db, setTarget, progs.Keys, i))
  {
  }

  /**
   * A successful pass leaves every program exactly as Expected says: no
   * symbol at its position, autoload off; else the first symbol as target;
   * nothing else changes.
   */
  lemma {:induction false} InitFromConfigures(db: Db, setTarget: SetTarget, progs: Progs, i: nat)
    ensures var r := InitFrom(db, setTarget, progs, i);
      r.rc == 0 ==> r.progs == map p | p in progs :: Expected(db, setTarget, progs, i, p)
    decreases MAX_SKB_POS - i
  {
    var r := InitFrom(db, setTarget, progs, i);
    if i >= MAX_SKB_POS {
      assert forall p | p in progs :: !AtPositionFrom(p, i);
    } else if r.rc == 0 {
      var a := InitAt(db, setTarget, progs, i);
      InitAtSucceedsIff(db, setTarget, progs, i);
      assert r == InitFrom(db, setTarget, a.progs, i + 1);
      InitFromConfigures(db, setTarget, a.progs, i + 1);
      forall p | p in progs
        ensures Expected(db, setTarget, a.progs, i + 1, p) == Expected(db, setTarget, progs, i, p)
      {
        InitAtExpected(db, setTarget, progs, i, p);
      }
    }
  }

  /** One successful position step takes each program one position further along Expected. */
  lemma InitAtExpected(db: Db, setTarget: SetTarget, progs: Progs, i: nat, p: ProgName)
    requires i < MAX_SKB_POS && p in progs
    requires InitAt(db, setTarget, progs, i).rc != -1
    ensures var a := InitAt(db, setTarget, progs, i);
      p in a.progs && Expected(db, setTarget, a.progs, i + 1, p) == Expected(db, setTarget, progs, i, p)
  {
    var a := InitAt(db, setTarget, progs, i);
    var syms := SymsAt(db, i);
    if p == Main(i) || p == MainReturn(i) {
      assert !AtPositionFrom(p, i + 1);
      if syms != [] {
        assert a.progs == SetAttachTarget(SetAttachTarget(progs, Main(i), syms[0], setTarget(Main(i), syms[0])),
          MainReturn(i), syms[0], setTarget(MainReturn(i), syms[0]));
      }
    } else {
      assert a.progs[p] == progs[p];
      assert AtPositionFrom(p, i + 1) == AtPositionFrom(p, i);
    }
  }

  /**
   * After a successful pass, a position with no first symbol has both its
   * entry and exit programs switched off, and a position with one has both
   * targeted at it (when set_attach_target returns 0 for them).
   */
  lemma SuccessfulPassConfiguresPositions(db: Db, setTarget: SetTarget, progs: Progs)
    ensures var r := InitFrom(db, setTarget, progs, 0);
      r.rc == 0 ==> forall j :: 0 <= j < MAX_SKB_POS ==>
        Main(j) in r.progs && MainReturn(j) in r.progs &&
        (SymsAt(db, j) == [] ==> !r.progs[Main(j)].autoload && !r.progs[MainReturn(j)].autoload) &&
        (SymsAt(db, j) != [] && setTarget(Main(j), SymsAt(db, j)[0]) == 0 ==>
          r.progs[Main(j)].target == Some(SymsAt(db, j)[0])) &&
        (SymsAt(db, j) != [] && setTarget(MainReturn(j), SymsAt(db, j)[0]) == 0 ==>
          r.progs[MainReturn(j)].target == Some(SymsAt(db, j)[0]))
  {
    var r := InitFrom(db, setTarget, progs, 0);
    if r.rc == 0 {
      InitFromSucceedsIff(db, setTarget, progs, 0);
      InitFromConfigures(db, setTarget, progs, 0);
      forall j | 0 <= j < MAX_SKB_POS
        ensures Main(j) in r.progs && MainReturn(j) in r.progs
        ensures r.progs[Main(j)] == Expected(db, setTarget, progs, 0, Main(j))
        ensures r.progs[MainReturn(j)] == Expected(db, setTarget, progs, 0, MainReturn(j))
      {
        assert PositionOk(db, setTarget, progs.Keys, j);
      }
    }
  }
}
