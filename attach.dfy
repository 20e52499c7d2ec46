/**
 * The attach engine of tracer.c: attach_all and its three strategies, which
 * move the symbols of the database into the counters of the global
 * attach_stat.
 *
 * Each strategy is a method that updates an AttachStat object (the global)
 * and is proved against a function that gives its return value and the new
 * counters from the old ones; the lemmas at the end state what the source
 * promises of those functions.
 */
module Attach {
  import opened Symsdb
  import opened Libbpf
  import Images

  /** The three counters a strategy moves symbols into. */
  datatype Counters = Counters(succeeded: nat, failed: nat, filtered: nat)
  {
    function Sum(): nat { succeeded + failed + filtered }
  }

  /** What a strategy returns (0 or -1) and the counters it leaves behind. */
  datatype Pass = Pass(rc: int, counts: Counters)

  /** The parts of struct ipft_tracer the engine reads. */
  datatype Tracer = Tracer(sdb: Db, re: Regex, bpf: Bpf)

  /** The global attach_stat. */
  class AttachStat {
    var total: nat
    var succeeded: nat
    var failed: nat
    var filtered: nat

    /** The static initialiser `= {0}`. */
    constructor ()
      ensures total == 0 && Counts() == Counters(0, 0, 0)
    {
      total, succeeded, failed, filtered := 0, 0, 0, 0;
    }

    function Counts(): Counters
      reads this
    {
      Counters(succeeded, failed, filtered)
    }
  }

  // ---------------------------------------------------------------------
  // kprobe: one attach per symbol, driven by symsdb_sym2info_foreach

  /** What attach_cb returns for one symbol and the counters it leaves. */
  function CbStep(t: Tracer, s: SymInfo, c: Counters): Pass
  {
    if !t.re(s.name) then Pass(0, c.(filtered := c.filtered + 1))
    else if !t.bpf.hasProg(Main(s.skbPos)) then Pass(-1, c)
    else if !t.bpf.kprobeAttach(s.name) then Pass(-1, c.(failed := c.failed + 1))
    else Pass(0, c.(succeeded := c.succeeded + 1))
  }

  /**
   * attach_kprobe over the symbols syms. symsdb_sym2info_foreach is not part
   * of this model; it is taken to call the callback on each symbol in turn and
   * to stop, returning -1, at the first callback that returns -1.
   */
  function KprobePass(t: Tracer, syms: seq<SymInfo>, c: Counters): Pass
    decreases |syms|
  {
    if syms == [] then Pass(0, c)
    else
      var p := CbStep(t, syms[0], c);
      if p.rc == -1 then p else KprobePass(t, syms[1..], p.counts)
  }

  /** A symbol the kprobe strategy attaches without error (or filters out). */
  predicate KprobeOk(t: Tracer, s: SymInfo)
  {
    t.re(s.name) ==> t.bpf.hasProg(Main(s.skbPos)) && t.bpf.kprobeAttach(s.name)
  }

  /** attach_cb: each symbol bumps exactly one counter, or none. */
  method AttachCb(stat: AttachStat, t: Tracer, s: SymInfo) returns (rc: int)
    modifies stat
    ensures stat.total == old(stat.total)
    ensures Pass(rc, stat.Counts()) == CbStep(t, s, old(stat.Counts()))
    ensures !t.re(s.name) ==>
      rc == 0 && stat.Counts() == old(stat.Counts()).(filtered := old(stat.filtered) + 1)
    ensures t.re(s.name) && !t.bpf.hasProg(Main(s.skbPos)) ==>
      rc == -1 && stat.Counts() == old(stat.Counts())
    ensures t.re(s.name) && t.bpf.hasProg(Main(s.skbPos)) && !t.bpf.kprobeAttach(s.name) ==>
      rc == -1 && stat.Counts() == old(stat.Counts()).(failed := old(stat.failed) + 1)
    ensures t.re(s.name) && t.bpf.hasProg(Main(s.skbPos)) && t.bpf.kprobeAttach(s.name) ==>
      rc == 0 && stat.Counts() == old(stat.Counts()).(succeeded := old(stat.succeeded) + 1)
  {
    if !t.re(s.name) {
      stat.filtered := stat.filtered + 1;
      return 0;
    }
    // sprintf(name, "ipft_main%d", si->skb_pos) cannot fail for these values
    if !t.bpf.hasProg(Main(s.skbPos)) {
      return -1;
    }
    if !t.bpf.kprobeAttach(s.name) {
      stat.failed := stat.failed + 1;
      return -1;
    }
    stat.succeeded := stat.succeeded + 1;
    return 0;
  }

  /** attach_kprobe; the loop stands for symsdb_sym2info_foreach (see KprobePass). */
  method AttachKprobe(stat: AttachStat, t: Tracer) returns (rc: int)
    modifies stat
    ensures stat.total == old(stat.total)
    ensures Pass(rc, stat.Counts()) == KprobePass(t, t.sdb.sym2info, old(stat.Counts()))
  {
    var syms := t.sdb.sym2info;
    var k := 0;
    while k < |syms|
      invariant 0 <= k <= |syms|
      invariant stat.total == old(stat.total)
      invariant KprobePass(t, syms, old(stat.Counts())) == KprobePass(t, syms[k..], stat.Counts())
    {
      assert syms[k..][1..] == syms[k + 1..];
      var error := AttachCb(stat, t, syms[k]);
      if error == -1 {
        return -1;
      }
      k := k + 1;
    }
    return 0;
  }

  // ---------------------------------------------------------------------
  // kprobe-multi: one bulk attach per position

  /** One iteration of the position loop of attach_kprobe_multi. */
  function MultiAt(t: Tracer, i: nat, c: Counters): Pass
  {
    if !t.bpf.hasProg(Main(i)) || !t.bpf.callocOk(i) then Pass(-1, c)
    else
      var names := SymsAt(t.sdb, i);
      var cur := |Filter(t.re, names)|;
      var f := c.(filtered := c.filtered + (|names| - cur));
      if t.bpf.multiAttach(i) then Pass(0, f.(succeeded := f.succeeded + cur))
      else Pass(0, f.(failed := f.failed + cur))
  }

  /** The position loop of attach_kprobe_multi over positions 0 .. n-1. */
  function MultiUpTo(t: Tracer, n: nat, c: Counters): Pass
  {
    if n == 0 then Pass(0, c)
    else
      var p := MultiUpTo(t, n - 1, c);
      if p.rc == -1 then p else MultiAt(t, n - 1, p.counts)
  }

  /**
   * attach_kprobe_multi. The names the regex accepts are gathered into the
   * calloc'd array syms through cur++, which stays within the array.
   */
  method AttachKprobeMulti(stat: AttachStat, t: Tracer) returns (rc: int)
    modifies stat
    ensures stat.total == old(stat.total)
    ensures Pass(rc, stat.Counts()) == MultiUpTo(t, MAX_SKB_POS, old(stat.Counts()))
  {
    var i := 0;
    while i < MAX_SKB_POS
      invariant 0 <= i <= MAX_SKB_POS
      invariant stat.total == old(stat.total)
      invariant MultiUpTo(t, i, old(stat.Counts())) == Pass(0, stat.Counts())
    {
      if !t.bpf.hasProg(Main(i)) || !t.bpf.callocOk(i) {
        // find_program_by_name or calloc returned NULL
        MultiUpToStops(t, i + 1, MAX_SKB_POS, old(stat.Counts()));
        return -1;
      }
      ghost var step := MultiAt(t, i, stat.Counts());
      assert MultiUpTo(t, i + 1, old(stat.Counts())) == step;
      var names := SymsAt(t.sdb, i);
      var syms := new Name[|names|];
      var cur := GatherMatches(stat, t.re, names, syms);
      // opts.cnt = cur: the bulk attach counts the whole batch one way
      if t.bpf.multiAttach(i) {
        stat.succeeded := stat.succeeded + cur;
      } else {
        stat.failed := stat.failed + cur;
      }
      assert step == Pass(0, stat.Counts());
      i := i + 1;
    }
    return 0;
  }

  /**
   * The symbol loop of attach_kprobe_multi: the names the regex accepts go,
   * in order, to the front of syms; every other name counts as filtered.
   */
  method GatherMatches(stat: AttachStat, re: Regex, names: seq<Name>, syms: array<Name>) returns (cur: nat)
    requires syms.Length == |names|
    modifies stat, syms
    ensures cur == |Filter(re, names)| && syms[..cur] == Filter(re, names)
    ensures stat.Counts() == old(stat.Counts()).(filtered := old(stat.filtered) + (|names| - cur))
    ensures stat.total == old(stat.total)
  {
    cur := 0;
    for j := 0 to |names|
      invariant cur <= j
      invariant syms[..cur] == Filter(re, names[..j])
      invariant stat.total == old(stat.total)
      invariant stat.succeeded == old(stat.succeeded) && stat.failed == old(stat.failed)
      invariant stat.filtered == old(stat.filtered) + (j - cur)
    {
      FilterSnoc(re, names, j);
      var sym := names[j];
      if !re(sym) {
        stat.filtered := stat.filtered + 1;
        continue;
      }
      syms[cur] := sym;
      cur := cur + 1;
    }
    assert names[..|names|] == names;
  }

  // ---------------------------------------------------------------------
  // ftrace: two programs loaded and two raw tracepoints opened per symbol

  /** A matching symbol the ftrace strategy attaches without error. */
  predicate FtraceOk(t: Tracer, sym: Name)
  {
    Lookup(t.sdb, sym).Some?
    && t.bpf.tpOpen(t.bpf.progLoad(sym, Entry))
    && t.bpf.tpOpen(t.bpf.progLoad(sym, Exit))
  }

  /**
   * One iteration of the symbol loop of attach_ftrace. The load checks of
   * the source test the status of symsdb_get_sym2info, which is 0 by then,
   * so a failed bpf_prog_load is not caught: its result goes on to
   * bpf_raw_tracepoint_open as the program descriptor.
   */
  function FtraceSym(t: Tracer, sym: Name, c: Counters): Pass
  {
    if !t.re(sym) then Pass(0, c.(filtered := c.filtered + 1))
    else if Lookup(t.sdb, sym).None? then Pass(-1, c)
    else if !t.bpf.tpOpen(t.bpf.progLoad(sym, Entry)) then Pass(-1, c)
    else if !t.bpf.tpOpen(t.bpf.progLoad(sym, Exit)) then Pass(-1, c)
    else Pass(0, c.(succeeded := c.succeeded + 1))
  }

  /** The symbol loop of attach_ftrace at one position; -1 ends the whole pass. */
  function FtraceNames(t: Tracer, names: seq<Name>, c: Counters): Pass
    decreases |names|
  {
    if names == [] then Pass(0, c)
    else
      var p := FtraceSym(t, names[0], c);
      if p.rc == -1 then p else FtraceNames(t, names[1..], p.counts)
  }

  /** One iteration of the position loop of attach_ftrace. */
  function FtraceAt(t: Tracer, i: nat, c: Counters): Pass
  {
    if !t.bpf.hasProg(Main(i)) || !t.bpf.hasProg(MainReturn(i)) then Pass(-1, c)
    else FtraceNames(t, SymsAt(t.sdb, i), c)
  }

  /** The position loop of attach_ftrace over positions 0 .. n-1. */
  function FtraceUpTo(t: Tracer, n: nat, c: Counters): Pass
  {
    if n == 0 then Pass(0, c)
    else
      var p := FtraceUpTo(t, n - 1, c);
      if p.rc == -1 then p else FtraceAt(t, n - 1, p.counts)
  }

  /** attach_ftrace. */
  function FtracePass(t: Tracer, c: Counters): Pass
  {
    if !t.bpf.btfFdOk then Pass(-1, c) else FtraceUpTo(t, MAX_SKB_POS, c)
  }

  method AttachFtrace(stat: AttachStat, t: Tracer) returns (rc: int)
    modifies stat
    ensures stat.total == old(stat.total)
    ensures Pass(rc, stat.Counts()) == FtracePass(t, old(stat.Counts()))
  {
    if !t.bpf.btfFdOk {
      return -1;
    }
    var i := 0;
    while i < MAX_SKB_POS
      invariant 0 <= i <= MAX_SKB_POS
      invariant stat.total == old(stat.total)
      invariant FtraceUpTo(t, i, old(stat.Counts())) == Pass(0, stat.Counts())
    {
      if !t.bpf.hasProg(Main(i)) || !t.bpf.hasProg(MainReturn(i)) {
        FtraceUpToStops(t, i + 1, MAX_SKB_POS, old(stat.Counts()));
        return -1;
      }
      ghost var step := FtraceNames(t, SymsAt(t.sdb, i), stat.Counts());
      assert FtraceUpTo(t, i + 1, old(stat.Counts())) == step;
      var error := AttachFtraceNames(stat, t, SymsAt(t.sdb, i));
      assert step == Pass(error, stat.Counts());
      if error == -1 {
        FtraceUpToStops(t, i + 1, MAX_SKB_POS, old(stat.Counts()));
        return -1;
      }
      i := i + 1;
    }
    return 0;
  }

  /** The symbol loop of attach_ftrace at one position. */
  method AttachFtraceNames(stat: AttachStat, t: Tracer, names: seq<Name>) returns (rc: int)
    modifies stat
    ensures stat.total == old(stat.total)
    ensures rc == 0 || rc == -1
    ensures Pass(rc, stat.Counts()) == FtraceNames(t, names, old(stat.Counts()))
  {
    var j := 0;
    while j < |names|
      invariant 0 <= j <= |names|
      invariant stat.total == old(stat.total)
      invariant FtraceNames(t, names, old(stat.Counts())) == FtraceNames(t, names[j..], stat.Counts())
    {
      assert names[j..][1..] == names[j + 1..];
      var sym := names[j];
      if !t.re(sym) {
        stat.filtered := stat.filtered + 1;
        j := j + 1;
        continue;
      }
      var sinfo := Lookup(t.sdb, sym);
      if sinfo.None? {
        return -1;
      }
      // the checks after each bpf_prog_load test the status of the lookup
      // above, which is 0 here, so a failed load is not caught
      var entryFd := t.bpf.progLoad(sym, Entry);
      var exitFd := t.bpf.progLoad(sym, Exit);
      if !t.bpf.tpOpen(entryFd) {
        return -1;
      }
      if !t.bpf.tpOpen(exitFd) {
        return -1;
      }
      stat.succeeded := stat.succeeded + 1;
      j := j + 1;
    }
    return 0;
  }

  // ---------------------------------------------------------------------
  // attach_all

  /** attach_all's dispatch on the backend string. */
  function AttachAllSpec(backend: string, t: Tracer, c: Counters): Pass
  {
    if backend == "kprobe" then KprobePass(t, t.sdb.sym2info, c)
    else if backend == "kprobe-multi" then MultiUpTo(t, MAX_SKB_POS, c)
    else if backend == "ftrace" then FtracePass(t, c)
    else Pass(-1, c)
  }

  /** attach_all: total is fixed before any strategy runs, on every path. */
  method AttachAll(stat: AttachStat, backend: string, t: Tracer) returns (rc: int)
    modifies stat
    ensures stat.total == |t.sdb.sym2info|
    ensures Pass(rc, stat.Counts()) == AttachAllSpec(backend, t, old(stat.Counts()))
  {
    stat.total := |t.sdb.sym2info|;
    var error;
    if backend == "kprobe" {
      error := AttachKprobe(stat, t);
      if error == -1 {
        return -1;
      }
    } else if backend == "kprobe-multi" {
      error := AttachKprobeMulti(stat, t);
      if error == -1 {
        return -1;
      }
    } else if backend == "ftrace" {
      error := AttachFtrace(stat, t);
      if error == -1 {
        return -1;
      }
    } else {
      return -1;
    }
    return error;
  }

  // ---------------------------------------------------------------------
  // Properties

  lemma FilterSnoc(re: Regex, names: seq<Name>, j: nat)
    requires j < |names|
    ensures Filter(re, names[..j + 1]) == Filter(re, names[..j]) + (if re(names[j]) then [names[j]] else [])
  {
    assert names[..j + 1][..j] == names[..j];
  }

  /** Once the kprobe-multi position loop has returned -1, later positions change nothing. */
  lemma {:induction false} MultiUpToStops(t: Tracer, n: nat, m: nat, c: Counters)
    requires n <= m && MultiUpTo(t, n, c).rc == -1
    ensures MultiUpTo(t, m, c) == MultiUpTo(t, n, c)
    decreases m - n
  {
    if n < m {
      MultiUpToStops(t, n, m - 1, c);
    }
  }

  /** Once the ftrace position loop has returned -1, later positions change nothing. */
  lemma {:induction false} FtraceUpToStops(t: Tracer, n: nat, m: nat, c: Counters)
    requires n <= m && FtraceUpTo(t, n, c).rc == -1
    ensures FtraceUpTo(t, m, c) == FtraceUpTo(t, n, c)
    decreases m - n
  {
    if n < m {
      FtraceUpToStops(t, n, m - 1, c);
    }
  }

  /**
   * The kprobe pass returns 0 exactly when every symbol the regex accepts has
   * its program and attaches: one failed attach ends the pass.
   */
  lemma {:induction false} KprobeSucceedsIff(t: Tracer, syms: seq<SymInfo>, c: Counters)
    ensures var p := KprobePass(t, syms, c);
      (p.rc == 0 || p.rc == -1) &&
      (p.rc == 0 <==> forall s :: s in syms ==> KprobeOk(t, s))
    decreases |syms|
  {
    if syms != [] {
      var p := CbStep(t, syms[0], c);
      if p.rc != -1 {
        KprobeSucceedsIff(t, syms[1..], p.counts);
        assert forall s :: s in syms <==> s == syms[0] || s in syms[1..];
      } else {
        assert syms[0] in syms && !KprobeOk(t, syms[0]);
      }
    }
  }

  /**
   * Conservation for the kprobe pass: when it returns 0 every symbol was
   * counted once, as succeeded or filtered, and none as failed; when it
   * returns -1 at most one symbol was counted as failed.
   */
  lemma {:induction false} KprobeConservation(t: Tracer, syms: seq<SymInfo>, c: Counters)
    ensures var p := KprobePass(t, syms, c);
      (p.rc == 0 ==> p.counts.Sum() == c.Sum() + |syms| && p.counts.failed == c.failed) &&
      (p.rc == -1 ==> p.counts.Sum() <= c.Sum() + |syms| && p.counts.failed <= c.failed + 1)
    decreases |syms|
  {
    if syms != [] {
      var p := CbStep(t, syms[0], c);
      if p.rc != -1 {
        KprobeConservation(t, syms[1..], p.counts);
      }
    }
  }

  /**
   * kprobe-multi at one position: filtered grows by the names the regex
   * rejects, and exactly one of succeeded and failed grows, by the number
   * of names gathered, according to the bulk attach.
   */
  lemma MultiAtBatch(t: Tracer, i: nat, c: Counters)
    requires t.bpf.hasProg(Main(i)) && t.bpf.callocOk(i)
    ensures var p := MultiAt(t, i, c);
      var names := SymsAt(t.sdb, i);
      var cur := |Filter(t.re, names)|;
      p.rc == 0 && cur <= |names| &&
      p.counts.filtered == c.filtered + (|names| - cur) &&
      (t.bpf.multiAttach(i) ==> p.counts.succeeded == c.succeeded + cur && p.counts.failed == c.failed) &&
      (!t.bpf.multiAttach(i) ==> p.counts.failed == c.failed + cur && p.counts.succeeded == c.succeeded)
  {
  }

  /**
   * The kprobe-multi pass returns 0 exactly when every position has its
   * program and its array: a failed bulk attach never ends the pass. When it
   * returns 0 every symbol of the positions was counted once.
   */
  lemma {:induction false} MultiUpToResult(t: Tracer, n: nat, c: Counters)
    ensures var p := MultiUpTo(t, n, c);
      (p.rc == 0 || p.rc == -1) &&
      (p.rc == 0 <==> forall i :: 0 <= i < n ==> t.bpf.hasProg(Main(i)) && t.bpf.callocOk(i)) &&
      (p.rc == 0 ==> p.counts.Sum() == c.Sum() + CountBelow(t.sdb, n))
  {
    if n > 0 {
      MultiUpToResult(t, n - 1, c);
    }
  }

  /** The ftrace symbol loop never counts a symbol as failed. */
  lemma {:induction false} FtraceNamesNeverFail(t: Tracer, names: seq<Name>, c: Counters)
    ensures var p := FtraceNames(t, names, c);
      (p.rc == 0 || p.rc == -1) &&
      p.counts.failed == c.failed &&
      (p.rc == 0 <==> forall x :: x in names && t.re(x) ==> FtraceOk(t, x)) &&
      (p.rc == 0 ==> p.counts.Sum() == c.Sum() + |names|)
    decreases |names|
  {
    if names != [] {
      var p := FtraceSym(t, names[0], c);
      if p.rc != -1 {
        FtraceNamesNeverFail(t, names[1..], p.counts);
        assert forall x :: x in names <==> x == names[0] || x in names[1..];
      }
    }
  }

  /**
   * The ftrace position loop: failed never grows; it returns 0 exactly when
   * every position has both programs and every matching symbol attaches;
   * and then every symbol of the positions was counted once.
   */
  lemma {:induction false} FtraceUpToResult(t: Tracer, n: nat, c: Counters)
    ensures var p := FtraceUpTo(t, n, c);
      (p.rc == 0 || p.rc == -1) &&
      p.counts.failed == c.failed &&
      (p.rc == 0 <==> forall i :: 0 <= i < n ==>
        t.bpf.hasProg(Main(i)) && t.bpf.hasProg(MainReturn(i)) &&
        forall x :: x in SymsAt(t.sdb, i) && t.re(x) ==> FtraceOk(t, x)) &&
      (p.rc == 0 ==> p.counts.Sum() == c.Sum() + CountBelow(t.sdb, n))
  {
    if n > 0 {
      FtraceUpToResult(t, n - 1, c);
      var p := FtraceUpTo(t, n - 1, c);
      if p.rc != -1 && t.bpf.hasProg(Main(n - 1)) && t.bpf.hasProg(MainReturn(n - 1)) {
        FtraceNamesNeverFail(t, SymsAt(t.sdb, n - 1), p.counts);
      }
    }
  }

  /** Filter distributes over concatenation. */
  lemma {:induction false} FilterConcat(re: Regex, a: seq<Name>, b: seq<Name>)
    ensures Filter(re, a + b) == Filter(re, a) + Filter(re, b)
    decreases |b|
  {
    if b == [] {
      assert a + b == a;
    } else {
      var init := b[..|b| - 1];
      var last := b[|b| - 1];
      var tail := if re(last) then [last] else [];
      FilterConcat(re, a, init);
      assert (a + b)[..|a + b| - 1] == a + init;
      assert (a + b)[|a + b| - 1] == last;
      assert Filter(re, a + b) == (Filter(re, a) + Filter(re, init)) + tail;
    }
  }

  /** Filter, unfolded at the head of the sequence rather than at its end. */
  lemma FilterCons(re: Regex, names: seq<Name>)
    requires names != []
    ensures Filter(re, names) == (if re(names[0]) then [names[0]] else []) + Filter(re, names[1..])
  {
    FilterConcat(re, [names[0]], names[1..]);
    assert [names[0]] + names[1..] == names;
    assert [names[0]][..0] == [];
  }

  /**
   * What one ftrace symbol does to the counters: a name the regex rejects
   * moves filtered only and returns 0; an accepted name moves succeeded only,
   * and returns 0, exactly when it is found and both tracepoints open;
   * otherwise it returns -1 and moves nothing.
   */
  lemma FtraceSymCounts(t: Tracer, sym: Name, c: Counters)
    ensures !t.re(sym) ==> FtraceSym(t, sym, c) == Pass(0, c.(filtered := c.filtered + 1))
    ensures t.re(sym) && FtraceOk(t, sym) ==>
      FtraceSym(t, sym, c) == Pass(0, c.(succeeded := c.succeeded + 1))
    ensures t.re(sym) && !FtraceOk(t, sym) ==> FtraceSym(t, sym, c) == Pass(-1, c)
  {
  }

  /**
   * The ftrace symbol loop at one position, counter by counter: when it
   * returns 0, succeeded has grown by the names the regex accepts, filtered
   * by the names it rejects, and failed not at all; when it returns -1,
   * neither has grown by more than that.
   */
  lemma {:induction false} FtraceNamesCounts(t: Tracer, names: seq<Name>, c: Counters)
    ensures FtraceNames(t, names, c).rc == 0 || FtraceNames(t, names, c).rc == -1
    ensures FtraceNames(t, names, c).rc == 0 ==>
      FtraceNames(t, names, c).counts == Counters(c.succeeded + |Filter(t.re, names)|, c.failed,
        c.filtered + (|names| - |Filter(t.re, names)|))
    ensures FtraceNames(t, names, c).rc == -1 ==>
      FtraceNames(t, names, c).counts.succeeded <= c.succeeded + |Filter(t.re, names)| &&
      FtraceNames(t, names, c).counts.filtered <= c.filtered + (|names| - |Filter(t.re, names)|) &&
      FtraceNames(t, names, c).counts.failed == c.failed
    decreases |names|
  {
    if names != [] {
      FilterCons(t.re, names);
      FtraceSymCounts(t, names[0], c);
      var p := FtraceSym(t, names[0], c);
      if p.rc != -1 {
        FtraceNamesCounts(t, names[1..], p.counts);
      }
    }
  }

  /**
   * The symbol loop over a + b is the loop over a, then, unless that
   * returned -1, the loop over b from the counters a left: a -1 ends the
   * pass and no later symbol is visited.
   */
  lemma {:induction false} FtraceNamesAppend(t: Tracer, a: seq<Name>, b: seq<Name>, c: Counters)
    ensures FtraceNames(t, a + b, c) ==
      (var p := FtraceNames(t, a, c); if p.rc == -1 then p else FtraceNames(t, b, p.counts))
    decreases |a|
  {
    if a != [] {
      assert (a + b)[1..] == a[1..] + b;
      var p := FtraceSym(t, a[0], c);
      if p.rc != -1 {
        FtraceNamesAppend(t, a[1..], b, p.counts);
      }
    } else {
      assert a + b == b;
    }
  }

  /**
   * The first accepted symbol that fails ends the pass with -1, and the
   * counters are exactly those of the symbols before it: the accepted ones
   * in succeeded, the rejected ones in filtered. Nothing after it counts.
   */
  lemma FtraceNamesStopsAtFailure(t: Tracer, a: seq<Name>, x: Name, b: seq<Name>, c: Counters)
    requires forall y :: y in a && t.re(y) ==> FtraceOk(t, y)
    requires t.re(x) && !FtraceOk(t, x)
    ensures FtraceNames(t, a + [x] + b, c) ==
      Pass(-1, Counters(c.succeeded + |Filter(t.re, a)|, c.failed, c.filtered + (|a| - |Filter(t.re, a)|)))
  {
    FtraceNamesNeverFail(t, a, c);
    FtraceNamesCounts(t, a, c);
    FtraceNamesAppend(t, a, [x] + b, c);
    assert a + [x] + b == a + ([x] + b);
    var p := FtraceNames(t, a, c);
    FtraceSymCounts(t, x, p.counts);
    assert ([x] + b)[0] == x;
  }

  /** The number of symbols at positions 0 .. n-1 that the regex accepts. */
  function AcceptedBelow(t: Tracer, n: nat): (r: nat)
    ensures r <= CountBelow(t.sdb, n)
  {
    if n == 0 then 0 else AcceptedBelow(t, n - 1) + |Filter(t.re, SymsAt(t.sdb, n - 1))|
  }

  /**
   * A successful ftrace position loop, counter by counter: succeeded has
   * grown by every accepted symbol of the positions, filtered by every
   * rejected one, and failed not at all.
   */
  lemma {:induction false} FtraceUpToCounts(t: Tracer, n: nat, c: Counters)
    ensures FtraceUpTo(t, n, c).rc == 0 || FtraceUpTo(t, n, c).rc == -1
    ensures FtraceUpTo(t, n, c).rc == 0 ==>
      FtraceUpTo(t, n, c).counts == Counters(c.succeeded + AcceptedBelow(t, n), c.failed,
        c.filtered + (CountBelow(t.sdb, n) - AcceptedBelow(t, n)))
  {
    if n > 0 {
      FtraceUpToCounts(t, n - 1, c);
      var p := FtraceUpTo(t, n - 1, c);
      if p.rc == 0 && t.bpf.hasProg(Main(n - 1)) && t.bpf.hasProg(MainReturn(n - 1)) {
        var names := SymsAt(t.sdb, n - 1);
        FtraceNamesCounts(t, names, p.counts);
        assert FtraceUpTo(t, n, c) == FtraceNames(t, names, p.counts);
        assert CountBelow(t.sdb, n) == CountBelow(t.sdb, n - 1) + |names|;
        assert AcceptedBelow(t, n) == AcceptedBelow(t, n - 1) + |Filter(t.re, names)|;
      }
    }
  }

  /**
   * A successful kprobe-multi position loop, counter by counter: filtered
   * has grown by every rejected symbol of the positions, and succeeded and
   * failed together by every accepted one.
   */
  lemma {:induction false} MultiUpToCounts(t: Tracer, n: nat, c: Counters)
    ensures MultiUpTo(t, n, c).rc == 0 ==>
      MultiUpTo(t, n, c).counts.filtered == c.filtered + (CountBelow(t.sdb, n) - AcceptedBelow(t, n)) &&
      MultiUpTo(t, n, c).counts.succeeded + MultiUpTo(t, n, c).counts.failed ==
        c.succeeded + c.failed + AcceptedBelow(t, n)
  {
    if n > 0 {
      MultiUpToCounts(t, n - 1, c);
    }
  }

  /**
   * When the tracepoint open rejects a negative descriptor, as the kernel
   * does, a failed bpf_prog_load is caught one step later: the symbol ends
   * the pass and no counter moves.
   */
  lemma FtraceLoadFailureCaughtAtOpen(t: Tracer, sym: Name, c: Counters)
    requires t.re(sym) && Lookup(t.sdb, sym).Some?
    requires t.bpf.progLoad(sym, Entry) < 0 || t.bpf.progLoad(sym, Exit) < 0
    requires forall fd :: fd < 0 ==> !t.bpf.tpOpen(fd)
    ensures FtraceSym(t, sym, c) == Pass(-1, c)
  {
  }

  /**
   * Conservation: whatever the backend, a successful attach_all has counted
   * every symbol of the database exactly once, so that
   * filtered + succeeded + failed == total when the counters start at zero.
   */
  lemma AttachAllConservation(backend: string, t: Tracer, c: Counters)
    requires Consistent(t.sdb)
    ensures var p := AttachAllSpec(backend, t, c);
      p.rc == 0 ==> p.counts.Sum() == c.Sum() + |t.sdb.sym2info|
  {
    KprobeConservation(t, t.sdb.sym2info, c);
    MultiUpToResult(t, MAX_SKB_POS, c);
    FtraceUpToResult(t, MAX_SKB_POS, c);
  }

  /** The ftrace backend never counts a symbol as failed. */
  lemma FtraceNeverFails(t: Tracer, c: Counters)
    ensures AttachAllSpec("ftrace", t, c).counts.failed == c.failed
  {
    FtraceUpToResult(t, MAX_SKB_POS, c);
  }

  /**
   * attach_all and get_target_image accept the same backend strings: any
   * other string makes attach_all return -1 without running a strategy.
   */
  lemma AttachAllAcceptsTargetImageBackends(backend: string, t: Tracer, c: Counters)
    ensures Images.GetTargetImage(backend).None? ==> AttachAllSpec(backend, t, c) == Pass(-1, c)
  {
  }

  /** A position loop over an empty database moves no counter. */
  lemma {:induction false} EmptyPositionsMoveNothing(t: Tracer, n: nat, c: Counters)
    requires Empty(t.sdb)
    ensures MultiUpTo(t, n, c).counts == c
    ensures FtraceUpTo(t, n, c).counts == c
  {
    if n > 0 {
      EmptyPositionsMoveNothing(t, n - 1, c);
      assert SymsAt(t.sdb, n - 1) == [];
    }
  }

  /**
   * Against an empty database every backend leaves the counters as they
   * were, and the kprobe backend completes without error.
   */
  lemma AttachAllEmptyDb(backend: string, t: Tracer, c: Counters)
    requires Empty(t.sdb)
    ensures AttachAllSpec(backend, t, c).counts == c
    ensures backend == "kprobe" ==> AttachAllSpec(backend, t, c).rc == 0
  {
    EmptyPositionsMoveNothing(t, MAX_SKB_POS, c);
  }
}
