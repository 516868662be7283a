/** The stack as a list, and what any balanced nesting of calls, pushes and interrupts leaves behind. */
module Stack {
  import opened Bytes
  import opened Registers
  import opened BusSpec
  import opened SystemSpec
  import opened Progress
  import opened Timings
  import Schedule
  import C = CpuSpec

  /* Plain RAM: memory without side effects, all in one mirror image or in high RAM */

  predicate PlainRam(lo: Word, hi: Word) {
    0xC000 <= lo <= hi <= 0xE000 || 0xE000 <= lo <= hi <= 0xFE00 || 0xFF80 <= lo <= hi <= 0xFFFF
  }

  predicate Outside(a: Word, lo: Word, hi: Word) { !(lo <= a < hi) && !(lo <= Echo(a) < hi) }

  ghost predicate SameBytes(b: Bus, c: Bus, lo: Word, hi: Word) {
    forall a: Word :: lo <= a < hi ==> c.mem[a] == b.mem[a]
  }

  lemma StoreOutside(b: Bus, a: Word, v: Byte, lo: Word, hi: Word)
    requires PlainRam(lo, hi) && Outside(a, lo, hi)
    ensures SameBytes(b, Write(b, a, v, FromCpu), lo, hi)
  {
  }

  lemma StoreInside(b: Bus, a: Word, v: Byte, lo: Word, hi: Word)
    requires PlainRam(lo, hi) && lo <= a < hi
    ensures var c := Write(b, a, v, FromCpu);
      c.mem[a] == v && forall x: Word :: lo <= x < hi && x != a ==> c.mem[x] == b.mem[x]
  {
  }

  lemma HardwareOutside(b: Bus, c: Bus, lo: Word, hi: Word)
    requires OnlyHardware(b, c) && PlainRam(lo, hi)
    ensures SameBytes(b, c, lo, hi)
  {
  }

  predicate AllOutside(stores: seq<Store>, lo: Word, hi: Word) {
    forall i :: 0 <= i < |stores| ==> Outside(stores[i].0, lo, hi)
  }

  lemma {:induction false} StoresOutside(b: Bus, stores: seq<Store>, lo: Word, hi: Word)
    requires PlainRam(lo, hi) && AllOutside(stores, lo, hi)
    ensures SameBytes(b, WriteAll(b, stores), lo, hi)
    decreases |stores|
  {
    hide Write, Outside;
    if |stores| > 0 {
      var c := Write(b, stores[0].0, stores[0].1, FromCpu);
      StoreOutside(b, stores[0].0, stores[0].1, lo, hi);
      StoresOutside(c, stores[1..], lo, hi);
    }
  }

  lemma {:induction false} WriteAllConcat(b: Bus, xs: seq<Store>, ys: seq<Store>)
    ensures WriteAll(b, xs + ys) == WriteAll(WriteAll(b, xs), ys)
    decreases |xs|
  {
    hide Write;
    if |xs| == 0 {
      assert xs + ys == ys;
    } else {
      assert (xs + ys)[1..] == xs[1..] + ys;
      WriteAllConcat(Write(b, xs[0].0, xs[0].1, FromCpu), xs[1..], ys);
    }
  }

  /* The stack between sp and base as a list of words, top first */

  function Words(b: Bus, sp: Word, base: Word): seq<Word>
    decreases base - sp
  {
    if sp + 2 > base then [] else [Join(b.mem[sp + 1], b.mem[sp])] + Words(b, sp + 2, base)
  }

  lemma {:induction false} SameBytesSameWords(b: Bus, c: Bus, sp: Word, base: Word)
    requires SameBytes(b, c, sp, base)
    ensures Words(b, sp, base) == Words(c, sp, base)
    decreases base - sp
  {
    if sp + 2 <= base {
      SameBytesSameWords(b, c, sp + 2, base);
    }
  }

  // An outcome that pushes w: its last two stores put w below sp, what it stored before misses the stack.
  ghost predicate Pushes(s: C.Cpu, o: C.Outcome, w: Word, lo: Word, base: Word) {
    && lo + 2 <= s.sp <= base && PlainRam(lo, base)
    && o.cpu.sp == s.sp - 2
    && exists before: seq<Store> ::
         AllOutside(before, lo, base) && o.stores == before + [(s.sp - 1, Hi(w)), (s.sp - 2, Lo(w))]
  }

  // An outcome that leaves sp and the live stack alone
  ghost predicate Neutral(s: C.Cpu, o: C.Outcome, lo: Word, base: Word) {
    && lo <= s.sp <= base && PlainRam(lo, base)
    && o.cpu.sp == s.sp
    && AllOutside(o.stores, s.sp, base)
  }

  // An outcome that drops one word and stores nothing
  ghost predicate Pops(s: C.Cpu, o: C.Outcome, lo: Word, base: Word) {
    && lo <= s.sp && s.sp + 2 <= base && PlainRam(lo, base)
    && o.cpu.sp == s.sp + 2
    && o.stores == []
  }

  // A push adds exactly one word on top of the list.
  lemma PushRefines(s: C.Cpu, m: Bus, o: C.Outcome, w: Word, lo: Word, base: Word)
    requires Pushes(s, o, w, lo, base)
    ensures var c := WriteAll(m, o.stores);
      && SameBytes(m, c, s.sp, base)
      && c.mem[s.sp - 1] == Hi(w) && c.mem[s.sp - 2] == Lo(w)
      && Words(c, o.cpu.sp, base) == [w] + Words(m, s.sp, base)
  {
    hide Write, Outside, Words;
    var before: seq<Store> :|
      AllOutside(before, lo, base) && o.stores == before + [(s.sp - 1, Hi(w)), (s.sp - 2, Lo(w))];
    var m1 := WriteAll(m, before);
    StoresOutside(m, before, lo, base);
    WriteAllConcat(m, before, [(s.sp - 1, Hi(w)), (s.sp - 2, Lo(w))]);
    WriteAllTwo(m1, (s.sp - 1, Hi(w)), (s.sp - 2, Lo(w)));
    StoreInside(m1, s.sp - 1, Hi(w), lo, base);
    StoreInside(Write(m1, s.sp - 1, Hi(w), FromCpu), s.sp - 2, Lo(w), lo, base);
    var c := WriteAll(m, o.stores);
    assert SameBytes(m, c, s.sp, base);
    SameBytesSameWords(m, c, s.sp, base);
    WordsUnfold(c, s.sp - 2, base);
  }

  lemma WordsUnfold(b: Bus, sp: Word, base: Word)
    requires sp + 2 <= base
    ensures Words(b, sp, base) == [Join(b.mem[sp + 1], b.mem[sp])] + Words(b, sp + 2, base)
  {
  }

  /* The same for whole actions of the machine */

  ghost predicate ActPushes(s: System, w: Word, lo: Word, base: Word)
    requires s.cpu.busy >= 0
  {
    !s.cpu.crashed && Pushes(s.cpu, Action(s), w, lo, base)
  }

  ghost predicate ActPops(s: System, lo: Word, base: Word)
    requires s.cpu.busy >= 0
  {
    !s.cpu.crashed && Pops(s.cpu, Action(s), lo, base)
  }

  ghost predicate ActNeutral(s: System, lo: Word, base: Word)
    requires s.cpu.busy >= 0
  {
    !s.cpu.crashed && Neutral(s.cpu, Action(s), lo, base)
  }

  lemma PushActs(s: System, n: nat, w: Word, lo: Word, base: Word)
    requires Schedule.Invariant(s, n) && ActPushes(s, w, lo, base)
    ensures SameBytes(s.bus, Act(s).bus, s.cpu.sp, base)
    ensures Act(s).cpu.sp == s.cpu.sp - 2
    ensures Act(s).bus.mem[s.cpu.sp - 1] == Hi(w) && Act(s).bus.mem[s.cpu.sp - 2] == Lo(w)
    ensures Words(Act(s).bus, Act(s).cpu.sp, base) == [w] + Words(s.bus, s.cpu.sp, base)
  {
    assert s.cpu.busy >= 0;
    hide Act, Action, SeenByCpu, Write, Schedule.Invariant, Words;
    var (m, o) := (SeenByCpu(s), Action(s));
    var c := WriteAll(m, o.stores);
    ActionOutcome(s, n);
    HardwareOutside(s.bus, m, lo, base);
    HardwareOutside(c, Act(s).bus, lo, base);
    PushRefines(s.cpu, m, o, w, lo, base);
    SameBytesSameWords(s.bus, m, s.cpu.sp, base);
    SameBytesSameWords(c, Act(s).bus, s.cpu.sp - 2, base);
  }

  lemma OtherActs(s: System, n: nat, lo: Word, base: Word)
    requires Schedule.Invariant(s, n) && (ActNeutral(s, lo, base) || ActPops(s, lo, base))
    ensures Act(s).cpu.sp == (if ActPops(s, lo, base) then s.cpu.sp + 2 else s.cpu.sp)
    ensures SameBytes(s.bus, Act(s).bus, Act(s).cpu.sp, base)
    ensures Words(Act(s).bus, Act(s).cpu.sp, base) ==
      if ActPops(s, lo, base) then Words(s.bus, s.cpu.sp, base)[1..] else Words(s.bus, s.cpu.sp, base)
  {
    assert s.cpu.busy >= 0;
    hide Act, Action, SeenByCpu, Write, Schedule.Invariant, Outside, Words, OnlyHardware;
    var (m, o) := (SeenByCpu(s), Action(s));
    ActionOutcome(s, n);
    if ActPops(s, lo, base) {
      assert AllOutside(o.stores, s.cpu.sp, base);
      WordsUnfold(s.bus, s.cpu.sp, base);
    }
    HardwareOutside(s.bus, m, s.cpu.sp, base);
    StoresOutside(m, o.stores, s.cpu.sp, base);
    HardwareOutside(WriteAll(m, o.stores), Act(s).bus, s.cpu.sp, base);
    SameBytesSameWords(s.bus, Act(s).bus, s.cpu.sp, base);
  }

  /* Balanced runs */

  // How a run is bracketed: plain actions, and pushes matched with pops around a balanced body.
  // A push is PUSH, CALL, RST or the entry into an interrupt; a pop is POP, RET or RETI.
  datatype Nest = Done | Plain(next: Nest) | Frame(body: Nest, next: Nest)

  function After(s: System, t: Nest): System
    decreases t
  {
    match t
    case Done => s
    case Plain(next) => After(ActOrStay(s), next)
    case Frame(body, next) => After(ActOrStay(After(ActOrStay(s), body)), next)
  }

  // The run that starts in s really is bracketed like t, with its stack between lo and base.
  ghost predicate Follows(s: System, t: Nest, lo: Word, base: Word)
    decreases t
  {
    s.cpu.busy >= 0 &&
    match t
    case Done => true
    case Plain(next) => ActNeutral(s, lo, base) && Follows(Act(s), next, lo, base)
    case Frame(body, next) =>
      var inner := After(Act(s), body);
      && (exists w: Word :: ActPushes(s, w, lo, base))
      && Follows(Act(s), body, lo, base)
      && inner.cpu.busy >= 0 && ActPops(inner, lo, base)
      && Follows(Act(inner), next, lo, base)
  }

  // The main result: however deep the nesting, a balanced run gives SP back and leaves every word of
  // the stack that was live at its start as it was.
  lemma {:induction false} BalancedRun(s: System, t: Nest, lo: Word, base: Word)
    requires Reachable(s) && Follows(s, t, lo, base)
    ensures Reachable(After(s, t))
    ensures After(s, t).cpu.sp == s.cpu.sp
    ensures SameBytes(s.bus, After(s, t).bus, s.cpu.sp, base)
    ensures Words(After(s, t).bus, s.cpu.sp, base) == Words(s.bus, s.cpu.sp, base)
    decreases t, 0
  {
    hide Act, Action, Write, Schedule.Invariant, Words, PlainRam;
    match t {
      case Done =>
      case Plain(next) =>
        NeutralStep(s, lo, base);
        BalancedRun(Act(s), next, lo, base);
      case Frame(body, next) =>
        var inner := After(Act(s), body);
        FrameStep(s, body, lo, base);
        BalancedRun(Act(inner), next, lo, base);
    }
    SameBytesSameWords(s.bus, After(s, t).bus, s.cpu.sp, base);
  }

  lemma NeutralStep(s: System, lo: Word, base: Word)
    requires Reachable(s) && s.cpu.busy >= 0 && ActNeutral(s, lo, base)
    ensures Reachable(Act(s)) && Act(s).cpu.sp == s.cpu.sp && SameBytes(s.bus, Act(s).bus, s.cpu.sp, base)
  {
    hide Act, Action, Words, Schedule.Invariant;
    ActReachable(s);
    var n: nat :| Schedule.Invariant(s, n);
    OtherActs(s, n, lo, base);
  }

  // A push, a balanced body and a pop: the popped word is the pushed one and SP is back.
  lemma {:induction false} FrameStep(s: System, body: Nest, lo: Word, base: Word)
    requires Reachable(s) && s.cpu.busy >= 0 && (exists w: Word :: ActPushes(s, w, lo, base))
    requires Follows(Act(s), body, lo, base)
    requires var inner := After(Act(s), body); inner.cpu.busy >= 0 && ActPops(inner, lo, base)
    ensures var (inner, end) := (After(Act(s), body), Act(After(Act(s), body)));
      && Reachable(inner) && Reachable(end)
      && end.cpu.sp == s.cpu.sp && SameBytes(s.bus, end.bus, s.cpu.sp, base)
      && forall w: Word :: ActPushes(s, w, lo, base) ==> C.Top(inner.cpu, SeenByCpu(inner)) == w
    decreases body, 1
  {
    hide Act, Action, SeenByCpu, Words, Schedule.Invariant;
    var inner := After(Act(s), body);
    ActReachable(s);
    var n: nat :| Schedule.Invariant(s, n);
    forall w: Word | ActPushes(s, w, lo, base)
      ensures Act(s).cpu.sp == s.cpu.sp - 2 && SameBytes(s.bus, Act(s).bus, s.cpu.sp, base)
      ensures Act(s).bus.mem[s.cpu.sp - 1] == Hi(w) && Act(s).bus.mem[s.cpu.sp - 2] == Lo(w)
    {
      PushActs(s, n, w, lo, base);
    }
    BalancedRun(Act(s), body, lo, base);
    ActReachable(inner);
    var k: nat :| Schedule.Invariant(inner, k);
    OtherActs(inner, k, lo, base);
    ActionOutcome(inner, k);
    HardwareOutside(inner.bus, SeenByCpu(inner), lo, base);
  }

  /* The instructions that push and pop */

  predicate Room(s: System, lo: Word, base: Word) { lo + 2 <= s.cpu.sp <= base && PlainRam(lo, base) }

  // CALL nn, taken conditional calls, RST and PUSH, and the word each pushes
  predicate IsPush(s: System, op: Byte, w: Word)
    requires s.cpu.busy >= 0
  {
    || (op == 0xCD && w == Plus(s.cpu.pc, 3))
    || (op in [0xC4, 0xCC, 0xD4, 0xDC] && C.Condition(op / 8 % 4, s.cpu.f) && w == Plus(s.cpu.pc, 3))
    || (op >= 0xC0 && op % 8 == 7 && w == Plus(s.cpu.pc, 1))
    || (op in [0xC5, 0xD5, 0xE5] && w == C.Pair(op / 16 - 12, s.cpu))
    || (op == 0xF5 && w == Join(s.cpu.a, s.cpu.f.ToByte()))
  }

  ghost predicate IsPushOf(o: C.Outcome, sp: Word, w: Word) {
    o.cpu.sp == Plus(sp, -2) && o.stores == [(Plus(sp, -1), Hi(w)), (Plus(sp, -2), Lo(w))]
  }

  lemma CallOpcode(op: Byte, s: C.Cpu, m: Bus)
    requires op == 0xCD || (op in [0xC4, 0xCC, 0xD4, 0xDC] && C.Condition(op / 8 % 4, s.f))
    ensures C.ExecOpcode(op, s, m) == C.Call(s, m, true)
  {
    hide C.Call, C.ExecLow, C.Alu, C.SetOperand, C.ExecPage, C.ExecAbsolute, C.PopPair, C.Ret, C.Jp, C.Rst, C.PushPair;
    assert op / 8 % 4 == if op == 0xCD then 1 else op / 8 - 24;
  }

  lemma CallOpcodePushes(op: Byte, s: C.Cpu, m: Bus)
    requires op == 0xCD || (op in [0xC4, 0xCC, 0xD4, 0xDC] && C.Condition(op / 8 % 4, s.f))
    ensures IsPushOf(C.ExecOpcode(op, s, m), s.sp, Plus(s.pc, 2))
  {
    CallOpcode(op, s, m);
    hide Read, C.ExecOpcode;
  }

  lemma RstOpcodePushes(op: Byte, s: C.Cpu, m: Bus)
    requires op >= 0xC0 && op % 8 == 7
    ensures IsPushOf(C.ExecOpcode(op, s, m), s.sp, s.pc)
  {
    hide Read;
  }

  lemma PushOpcodePushes(op: Byte, s: C.Cpu, m: Bus)
    requires op in [0xC5, 0xD5, 0xE5, 0xF5]
    ensures
      var w := if op == 0xF5 then Join(s.a, s.f.ToByte()) else C.Pair(op / 16 - 12, s);
      IsPushOf(C.ExecOpcode(op, s, m), s.sp, w)
  {
    hide Read;
    assert C.ExecOpcode(op, s, m) == C.PushPair(op / 16 - 12, s);
  }

  lemma PushIsPlain(s: System, op: Byte, w: Word)
    requires s.cpu.busy >= 0 && IsPush(s, op, w)
    ensures op != 0xCB
  {
  }

  lemma InstructionPushes(s: System, op: Byte, w: Word, lo: Word, base: Word)
    requires s.cpu.busy >= 0 && Executes(s, op) && IsPush(s, op, w) && Room(s, lo, base)
    ensures ActPushes(s, w, lo, base)
  {
    hide SeenByCpu, Action, C.ExecOpcode, C.Listening, C.Condition, Charge, Ticks;
    PushIsPlain(s, op, w);
    hide IsPush;
    ExecutesOpcode(s, op);
    OpcodePushes(s, op, w);
    OnlyPushes(s.cpu, Action(s), w, lo, base);
  }

  lemma OpcodePushes(s: System, op: Byte, w: Word)
    requires s.cpu.busy >= 0 && IsPush(s, op, w)
    ensures IsPushOf(C.ExecOpcode(op, C.Advance(s.cpu, 1).(busy := Charge(op)), SeenByCpu(s)), s.cpu.sp, w)
  {
    hide SeenByCpu, C.ExecOpcode, C.Condition, Charge;
    var s1 := C.Advance(s.cpu, 1).(busy := Charge(op));
    if op % 8 == 7 {
      RstOpcodePushes(op, s1, SeenByCpu(s));
    } else if op in [0xC5, 0xD5, 0xE5, 0xF5] {
      PushOpcodePushes(op, s1, SeenByCpu(s));
    } else {
      CallOpcodePushes(op, s1, SeenByCpu(s));
    }
  }

  lemma OnlyPushes(s: C.Cpu, o: C.Outcome, w: Word, lo: Word, base: Word)
    requires IsPushOf(o, s.sp, w) && lo + 2 <= s.sp <= base && PlainRam(lo, base)
    ensures Pushes(s, o, w, lo, base)
  {
    hide PlainRam, Outside;
    var before: seq<Store> := [];
    assert AllOutside(before, lo, base);
    assert o.stores == before + [(s.sp - 1, Hi(w)), (s.sp - 2, Lo(w))];
  }

  lemma InterruptPushes(s: System, lo: Word, base: Word)
    requires s.cpu.busy >= 0 && !s.cpu.crashed && s.cpu.ime && C.FirstPending(SeenByCpu(s)).Some?
    requires Room(s, lo, base)
    ensures ActPushes(s, s.cpu.pc, lo, base)
  {
    hide SeenByCpu, C.FirstPending, C.Acknowledged;
    var i := C.FirstPending(SeenByCpu(s)).value;
    var o := Action(s);
    var before := [(REG_IF, C.Acknowledged(SeenByCpu(s), i))];
    assert AllOutside(before, lo, base);
    assert o.stores == before + [(s.cpu.sp - 1, Hi(s.cpu.pc)), (s.cpu.sp - 2, Lo(s.cpu.pc))];
  }

  // RET, RETI, a taken conditional return or a POP, with a word to drop
  predicate IsPop(s: System, op: Byte)
    requires s.cpu.busy >= 0
  {
    || op == 0xC9 || op == 0xD9 || op in [0xC1, 0xD1, 0xE1, 0xF1]
    || (op in [0xC0, 0xC8, 0xD0, 0xD8] && C.Condition(op / 8 % 4, s.cpu.f))
  }

  lemma ReturnOpcodePops(op: Byte, s: C.Cpu, m: Bus)
    requires op == 0xC9 || op == 0xD9 || (op in [0xC0, 0xC8, 0xD0, 0xD8] && C.Condition(op / 8 % 4, s.f))
    ensures C.ExecOpcode(op, s, m) == C.Silent(s.(sp := Plus(s.sp, 2), pc := C.Top(s, m), ime := s.ime || op == 0xD9))
  {
    hide Read;
  }

  lemma PopOpcodePops(op: Byte, s: C.Cpu, m: Bus)
    requires op in [0xC1, 0xD1, 0xE1, 0xF1]
    ensures C.ExecOpcode(op, s, m) == C.Silent(C.PopPair(op / 16 - 12, s, m))
    ensures C.PopPair(op / 16 - 12, s, m).sp == Plus(s.sp, 2)
  {
    hide Read, C.Top;
  }

  lemma InstructionPops(s: System, op: Byte, lo: Word, base: Word)
    requires s.cpu.busy >= 0 && Executes(s, op) && IsPop(s, op)
    requires lo <= s.cpu.sp && s.cpu.sp + 2 <= base && PlainRam(lo, base)
    ensures ActPops(s, lo, base)
    ensures op == 0xC9 || op == 0xD9 || op % 8 == 0 ==> Action(s).cpu.pc == C.Top(s.cpu, SeenByCpu(s))
    ensures op == 0xD9 ==> Action(s).cpu.ime
    ensures op == 0xF1 ==> Action(s).cpu.a == Hi(C.Top(s.cpu, SeenByCpu(s)))
    ensures op == 0xF1 ==> Action(s).cpu.f == C.FlagsOf(Lo(C.Top(s.cpu, SeenByCpu(s)))).(low := 0)
  {
    ExecutesOpcode(s, op);
    hide SeenByCpu, Action, C.Listening, C.ExecOpcode, C.FlagsOf, Charge, Read;
    var s1 := C.Advance(s.cpu, 1).(busy := Charge(op));
    if op in [0xC1, 0xD1, 0xE1, 0xF1] {
      PopOpcodePops(op, s1, SeenByCpu(s));
    } else {
      ReturnOpcodePops(op, s1, SeenByCpu(s));
    }
  }

  // A bracket of the run: s pushes w, the body is balanced, and the action after it pops.
  lemma BracketCloses(s: System, w: Word, body: Nest, op: Byte, lo: Word, base: Word)
    requires Reachable(s) && s.cpu.busy >= 0 && ActPushes(s, w, lo, base)
    requires Follows(Act(s), body, lo, base)
    requires var inner := After(Act(s), body); inner.cpu.busy >= 0 && Executes(inner, op) && IsPop(inner, op)
    ensures var (inner, end) := (After(Act(s), body), Act(After(Act(s), body)));
      && Reachable(inner) && !inner.cpu.crashed && end.cpu == Action(inner).cpu
      && end.cpu.sp == s.cpu.sp
      && Words(end.bus, s.cpu.sp, base) == Words(s.bus, s.cpu.sp, base)
      && C.Top(inner.cpu, SeenByCpu(inner)) == w
      && lo <= inner.cpu.sp && inner.cpu.sp + 2 <= base && PlainRam(lo, base)
  {
    hide Act, Action, SeenByCpu, Words, Schedule.Invariant, C.Listening, C.Top;
    var inner := After(Act(s), body);
    ActReachable(s);
    var n: nat :| Schedule.Invariant(s, n);
    PushActs(s, n, w, lo, base);
    BalancedRun(Act(s), body, lo, base);
    InstructionPops(inner, op, lo, base);
    FrameStep(s, body, lo, base);
    SameBytesSameWords(s.bus, Act(inner).bus, s.cpu.sp, base);
    var k: nat :| Schedule.Invariant(inner, k);
    ActionOutcome(inner, k);
  }

  // An interrupted program resumes where it was: handlers of any depth that end in RETI restore PC, SP,
  // the stack and IME.
  lemma InterruptReturns(s: System, body: Nest, lo: Word, base: Word)
    requires Reachable(s) && s.cpu.busy >= 0 && !s.cpu.crashed
    requires s.cpu.ime && C.FirstPending(SeenByCpu(s)).Some? && Room(s, lo, base)
    requires Follows(Act(s), body, lo, base)
    requires var inner := After(Act(s), body); inner.cpu.busy >= 0 && Executes(inner, 0xD9)
    ensures var end := Act(After(Act(s), body));
      && end.cpu.pc == s.cpu.pc && end.cpu.sp == s.cpu.sp && end.cpu.ime
      && Words(end.bus, s.cpu.sp, base) == Words(s.bus, s.cpu.sp, base)
  {
    hide Act, Action, SeenByCpu, Words, Schedule.Invariant, C.Listening, C.FirstPending;
    InterruptPushes(s, lo, base);
    BracketCloses(s, s.cpu.pc, body, 0xD9, lo, base);
    InstructionPops(After(Act(s), body), 0xD9, lo, base);
  }

  lemma PushedReturn(s: System, op: Byte, w: Word)
    requires s.cpu.busy >= 0 && IsPush(s, op, w) && (op == 0xCD || op % 8 == 4 || op % 8 == 7)
    ensures w == Plus(s.cpu.pc, if op % 8 == 7 then 1 else 3)
  {
    hide Plus, C.Condition, C.Pair, Join;
    assert !(op in [0xC5, 0xD5, 0xE5]) && op != 0xF5;
  }

  // Calls of every form return behind themselves: CALL, taken conditional calls and RST, ended by any return.
  lemma CallReturns(s: System, op: Byte, w: Word, body: Nest, ret: Byte, lo: Word, base: Word)
    requires Reachable(s) && s.cpu.busy >= 0 && Executes(s, op) && Room(s, lo, base)
    requires IsPush(s, op, w) && (op == 0xCD || op % 8 == 4 || op % 8 == 7)
    requires Follows(Act(s), body, lo, base)
    requires var inner := After(Act(s), body);
      inner.cpu.busy >= 0 && Executes(inner, ret) && IsPop(inner, ret) && (ret == 0xC9 || ret == 0xD9 || ret % 8 == 0)
    ensures w == Plus(s.cpu.pc, if op % 8 == 7 then 1 else 3)
    ensures var end := Act(After(Act(s), body));
      && end.cpu.pc == w && end.cpu.sp == s.cpu.sp
      && Words(end.bus, s.cpu.sp, base) == Words(s.bus, s.cpu.sp, base)
  {
    hide Act, Action, SeenByCpu, Words, Schedule.Invariant, C.Listening, IsPush, IsPop, Executes, Follows;
    PushedReturn(s, op, w);
    InstructionPushes(s, op, w, lo, base);
    BracketCloses(s, w, body, ret, lo, base);
    InstructionPops(After(Act(s), body), ret, lo, base);
  }

  // PUSH AF ... POP AF gives A and F back, because F's low nibble is clear in every reachable state.
  lemma PushPopAF(s: System, body: Nest, lo: Word, base: Word)
    requires Reachable(s) && s.cpu.busy >= 0 && Executes(s, 0xF5) && Room(s, lo, base)
    requires Follows(Act(s), body, lo, base)
    requires var inner := After(Act(s), body); inner.cpu.busy >= 0 && Executes(inner, 0xF1)
    ensures var end := Act(After(Act(s), body));
      end.cpu.a == s.cpu.a && end.cpu.f == s.cpu.f && end.cpu.sp == s.cpu.sp
  {
    assert s.cpu.f.low == 0;
    hide Act, Action, SeenByCpu, Words, Schedule.Invariant, C.Listening;
    var w := Join(s.cpu.a, s.cpu.f.ToByte());
    InstructionPushes(s, 0xF5, w, lo, base);
    BracketCloses(s, w, body, 0xF1, lo, base);
    InstructionPops(After(Act(s), body), 0xF1, lo, base);
    FlagsRoundTrip(s.cpu.f);
  }

  lemma FlagsRoundTrip(f: C.Flags)
    requires f.low == 0
    ensures C.FlagsOf(f.ToByte()) == f
  {
  }
}
