/** The scheduler (kernel/scheduler.cpp, with the context switches of kernel/i686/ixkm.s) as a transition
    system on one processor: the core's scan over the task slots, the tasks, and interrupts take steps in
    any order that the interrupt flag allows. The code between `cli` and the switch or `sti` that ends it
    is one step. */
module Schedulers {
  import opened Wrappers

  const TASKS := 32
  const TIMER := 0x28

  /** Everything a switch saves, and the interrupt flag in it. */
  datatype Context = Context(registers: nat, enabled: bool)

  datatype TaskState = Empty | New | Run | Running | WaitInt

  /** `waits` has a set of bits for each word of the source's bitmap. */
  datatype Slot = Slot(state: TaskState, saved: Context, waits: seq<set<nat>>)

  /** Where the core's loop stands: about to test a slot, having claimed one with interrupts still on, or
      switched away from one and not yet past it. */
  datatype Point = Scan(i: nat) | Claimed(i: nat) | Away(i: nat)

  datatype Active = Null | Core | Task(i: nat)

  /** `active` and `core` are the source's `active_task` and `core_task`. Who has the processor
      (`onCpu`), what each slot last had in its registers (`left`) and which interrupts it asked for
      (`asked`) is known to no one in the source. */
  datatype System = System(
    slots: seq<Slot>, point: Point, active: Active, core: Context, cpu: Context,
    onCpu: Active, left: seq<Context>, asked: seq<set<nat>>)

  predicate Sized(s: System) {
    && |s.slots| == |s.left| == |s.asked| == TASKS && s.point.i < TASKS
    && (s.active.Task? ==> s.active.i < TASKS) && (s.onCpu.Task? ==> s.onCpu.i < TASKS)
    && forall i :: 0 <= i < TASKS ==> |s.slots[i].waits| == 4
  }

  function After(i: nat): nat { if i + 1 < TASKS then i + 1 else 0 }

  /** Word and bit of an interrupt number. From 0x80 on the shift count wraps. */
  function Word(n: nat): (w: nat)
    ensures w < 4
  {
    if n >= 0x60 then 3 else if n >= 0x40 then 2 else if n >= 0x20 then 1 else 0
  }

  function Bit(n: nat): nat { (n - 0x20 * Word(n)) % 32 }

  // ----- Steps of the core -----

  /** One step of the loop in `run`, which is entered again whenever it ends. */
  function CoreStep(s: System): (r: System)
    requires Sized(s) && s.onCpu != Task(s.point.i)
    ensures Sized(r)
  {
    var i := s.point.i;
    match s.point
    case Scan(_) =>
      if s.slots[i].state == Run then s.(slots := s.slots[i := s.slots[i].(state := Running)], point := Claimed(i))
      else s.(point := Scan(After(i)))
    case Claimed(_) => Dispatch(s, i)
    case Away(_) =>
      var slot := s.slots[i];
      s.(slots := s.slots[i := if slot.state == Running then slot.(state := Run) else slot],
         point := Scan(After(i)), cpu := s.cpu.(enabled := true))
  }

  /** With interrupts off, the switch to the task of slot `i`. */
  function Dispatch(s: System, i: nat): (r: System)
    requires Sized(s) && i < TASKS
    ensures Sized(r)
  {
    s.(active := Task(i), core := s.cpu.(enabled := false), cpu := s.slots[i].saved, onCpu := Task(i), point := Away(i))
  }

  // ----- Steps of a task -----

  /** The context on the processor saved for `active_task`, and the core's taken up. */
  function ToCore(s: System): (r: System)
    requires Sized(s)
    ensures Sized(r)
  {
    var s1 := match s.active
      case Task(i) => s.(slots := s.slots[i := s.slots[i].(saved := s.cpu)])
      case _ => s.(core := s.cpu);
    s1.(active := Core, cpu := s1.core, onCpu := Core,
        left := match s.onCpu case Task(j) => s.left[j := s.cpu] case _ => s.left)
  }

  /** `wait_for_interrupts`. */
  function Wait(s: System): (r: System)
    requires Sized(s) && s.active.Task?
    ensures Sized(r)
  {
    var i := s.active.i;
    ToCore(s.(slots := s.slots[i := s.slots[i].(state := WaitInt)], cpu := s.cpu.(enabled := false)))
  }

  /** `wake_on_interrupt`. */
  function Ask(s: System, n: nat): (r: System)
    requires Sized(s) && s.active.Task?
    ensures Sized(r)
  {
    var i, w := s.active.i, Word(n);
    var waits := s.slots[i].waits;
    s.(slots := s.slots[i := s.slots[i].(waits := waits[w := waits[w] + {Bit(n)}])], cpu := s.cpu.(enabled := true),
       asked := match s.onCpu case Task(j) => s.asked[j := s.asked[j] + {n}] case _ => s.asked)
  }

  // ----- Interrupts -----

  function Woken(slot: Slot, n: nat): Slot
    requires |slot.waits| == 4
  {
    if slot.state == WaitInt && Bit(n) in slot.waits[Word(n)] then slot.(state := Run) else slot
  }

  /** `wake_tasks`. */
  function Wake(slots: seq<Slot>, n: nat): (r: seq<Slot>)
    requires forall i :: 0 <= i < |slots| ==> |slots[i].waits| == 4
    ensures |r| == |slots| && forall i :: 0 <= i < |r| ==> r[i] == Woken(slots[i], n)
  {
    seq(|slots|, i requires 0 <= i < |slots| => Woken(slots[i], n))
  }

  /** `scheduler_from_interrupt`: tasks are woken, and the timer takes the processor from its task. */
  function Interrupt(s: System, n: nat): (r: System)
    requires Sized(s)
    ensures Sized(r)
  {
    if s.active == Null then s
    else
      var s1 := s.(slots := Wake(s.slots, n));
      if n == TIMER then ToCore(s1) else s1
  }

  // ----- Starting a task -----

  /** The first empty slot, or the number of slots. */
  function FirstEmpty(slots: seq<Slot>): (i: nat)
    ensures i <= |slots| && (i < |slots| ==> slots[i].state == Empty)
    ensures forall j :: 0 <= j < i ==> slots[j].state != Empty
  {
    if slots == [] || slots[0].state == Empty then 0 else 1 + FirstEmpty(slots[1..])
  }

  /** `get_free`. */
  function Reserve(s: System): (r: System)
    requires Sized(s)
    ensures Sized(r)
  {
    var i := FirstEmpty(s.slots);
    if i < TASKS then s.(slots := s.slots[i := s.slots[i].(state := New)]) else s
  }

  /** Whoever has the processor computes. Only a task sets or clears the interrupt flag on its own. */
  function Work(s: System, to: Context): (r: System)
    requires Sized(s)
    ensures Sized(r)
  {
    s.(cpu := if s.onCpu.Task? then to else Context(to.registers, s.cpu.enabled))
  }

  /** The rest of `start`, on a slot that `get_free` returned. */
  function Launch(s: System, i: nat, entry: Context): (r: System)
    requires Sized(s) && i < TASKS
    ensures Sized(r)
  {
    s.(slots := s.slots[i := Slot(Run, entry, [{}, {}, {}, {}])], left := s.left[i := entry], asked := s.asked[i := {}])
  }

  // ----- Runs -----

  datatype Event =
    | Steps                     // the core, if it has the processor
    | Works(to: Context)        // the core or a task computes
    | Waits | Asks(n: nat)      // a task calls the scheduler
    | Interrupted(n: nat)       // if the interrupt flag is set
    | Reserves | Launches(i: nat, entry: Context)

  function Step(s: System, e: Event): (r: System)
    requires Sized(s)
    ensures Sized(r)
  {
    match e
    case Steps => if s.onCpu.Task? then s else CoreStep(s)
    case Works(to) => Work(s, to)
    case Waits => if s.onCpu.Task? && s.active.Task? then Wait(s) else s
    case Asks(n) => if s.onCpu.Task? && s.active.Task? then Ask(s, n) else s
    case Interrupted(n) => if s.cpu.enabled then Interrupt(s, n) else s
    case Reserves => Reserve(s)
    case Launches(i, entry) => if i < TASKS && s.slots[i].state == New then Launch(s, i, entry) else s
  }

  predicate Hears(slot: Slot, n: nat) { |slot.waits| == 4 && Bit(n) in slot.waits[Word(n)] }

  /** Numbers that the bitmap does not tell apart. */
  predicate Alike(m: nat, n: nat) { Word(m) == Word(n) && Bit(m) == Bit(n) }

  predicate AskedFor(asked: set<nat>, n: nat) { exists m :: m in asked && Alike(m, n) }

  predicate Live(t: TaskState) { t in {Run, Running, WaitInt} }

  /** A slot is running only where the core's loop stands; off the processor it has the context it left
      with; and it hears the interrupts it asked for. */
  ghost predicate SlotOk(s: System, i: nat)
    requires Sized(s) && i < TASKS
  {
    && (s.slots[i].state == Running ==> !s.point.Scan? && s.point.i == i)
    && (Live(s.slots[i].state) && s.onCpu != Task(i) ==> s.slots[i].saved == s.left[i])
    && (Live(s.slots[i].state) ==>
          forall n: nat {:trigger Hears(s.slots[i], n)} :: Hears(s.slots[i], n) <==> AskedFor(s.asked[i], n))
  }

  /** The core and the tasks agree on who runs. */
  ghost predicate Inv(s: System) {
    && Sized(s) && s.onCpu != Null
    && (s.onCpu.Task? || s.active.Task? ==>
          && s.active == s.onCpu && s.point == Away(s.onCpu.i) && s.slots[s.onCpu.i].state == Running && !s.core.enabled)
    && (s.point.Claimed? ==> s.slots[s.point.i].state == Running)
    && (s.point.Away? && s.onCpu == Core ==> s.slots[s.point.i].state in {Running, WaitInt} && !s.cpu.enabled)
    && forall i: nat {:trigger SlotOk(s, i)} :: i < TASKS ==> SlotOk(s, i)
  }

  lemma CoreKeeps(s: System)
    requires Inv(s) && !s.onCpu.Task?
    ensures Inv(CoreStep(s))
  {
    var r := CoreStep(s);
    assert SlotOk(s, s.point.i);
    forall i: nat | i < TASKS ensures SlotOk(r, i) {
      assert SlotOk(s, i);
      assert r.slots[i].waits == s.slots[i].waits;
      forall n: nat ensures Hears(r.slots[i], n) == Hears(s.slots[i], n) { }
    }
  }

  lemma WaitKeeps(s: System)
    requires Inv(s) && s.onCpu.Task?
    ensures Inv(Wait(s))
  {
    var r := Wait(s);
    forall i: nat | i < TASKS ensures SlotOk(r, i) {
      assert SlotOk(s, i);
      forall n: nat ensures Hears(r.slots[i], n) == Hears(s.slots[i], n) { }
    }
  }

  lemma AskKeeps(s: System, n: nat)
    requires Inv(s) && s.onCpu.Task?
    ensures Inv(Ask(s, n))
  {
    var r, j := Ask(s, n), s.onCpu.i;
    forall i: nat | i < TASKS ensures SlotOk(r, i) {
      assert SlotOk(s, i);
      if i == j {
        forall m: nat ensures Hears(r.slots[i], m) <==> AskedFor(r.asked[i], m) {
          assert Hears(r.slots[i], m) <==> Hears(s.slots[i], m) || Alike(n, m);
          AskedMore(s.asked[i], n, m);
        }
      }
    }
  }

  lemma AskedMore(asked: set<nat>, n: nat, m: nat)
    ensures AskedFor(asked + {n}, m) <==> AskedFor(asked, m) || Alike(n, m)
  {
    if Alike(n, m) { assert n in asked + {n}; }
    if k :| k in asked && Alike(k, m) { assert k in asked + {n}; }
  }

  lemma InterruptKeeps(s: System, n: nat)
    requires Inv(s) && s.cpu.enabled
    ensures Inv(Interrupt(s, n))
  {
    var r := Interrupt(s, n);
    forall i: nat | i < TASKS ensures SlotOk(r, i) {
      assert SlotOk(s, i);
      forall m: nat ensures Hears(r.slots[i], m) == Hears(s.slots[i], m) { }
    }
  }

  lemma StartKeeps(s: System, i: nat, entry: Context)
    requires Inv(s)
    ensures Inv(Reserve(s)) && (i < TASKS && s.slots[i].state == New ==> Inv(Launch(s, i, entry)))
  {
    var a := Reserve(s);
    forall j: nat | j < TASKS ensures SlotOk(a, j) { assert SlotOk(s, j); }
    if i < TASKS && s.slots[i].state == New {
      var b := Launch(s, i, entry);
      forall j: nat | j < TASKS ensures SlotOk(b, j) { assert SlotOk(s, j); }
    }
  }

  lemma StepKeeps(s: System, e: Event)
    requires Inv(s)
    ensures Inv(Step(s, e))
  {
    match e
    case Steps => if !s.onCpu.Task? { CoreKeeps(s); }
    case Works(to) => forall i: nat | i < TASKS ensures SlotOk(Step(s, e), i) { assert SlotOk(s, i); }
    case Waits => if s.onCpu.Task? { WaitKeeps(s); }
    case Asks(n) => if s.onCpu.Task? { AskKeeps(s, n); }
    case Interrupted(n) => if s.cpu.enabled { InterruptKeeps(s, n); }
    case Reserves => StartKeeps(s, 0, s.cpu);
    case Launches(i, entry) => StartKeeps(s, i, entry);
  }

  const IDLE := Slot(Empty, Context(0, false), [{}, {}, {}, {}])

  /** After `init`: no tasks, and the core about to enter its loop. */
  function Start(cpu: Context): (s: System)
    ensures Sized(s)
  {
    System(seq(TASKS, i => IDLE), Scan(0), Null, Context(0, false), cpu, Core,
           seq(TASKS, i => Context(0, false)), seq(TASKS, i => {}))
  }

  function RunOf(s: System, events: seq<Event>): (r: System)
    requires Sized(s)
    ensures Sized(r)
    decreases |events|
  {
    if events == [] then s else RunOf(Step(s, events[0]), events[1..])
  }

  lemma {:induction false} RunKeeps(s: System, events: seq<Event>)
    requires Inv(s)
    ensures Inv(RunOf(s, events))
    decreases |events|
  {
    if events != [] {
      StepKeeps(s, events[0]);
      RunKeeps(Step(s, events[0]), events[1..]);
    }
  }

  lemma StartInv(cpu: Context)
    ensures Inv(Start(cpu))
  {
    var s := Start(cpu);
    forall i: nat | i < TASKS ensures SlotOk(s, i) { }
  }

  /** In every state reached at most one slot is running, and a task that has the processor is it. */
  lemma OneRunning(cpu: Context, events: seq<Event>, i: nat, j: nat)
    requires i < TASKS && j < TASKS
    ensures var s := RunOf(Start(cpu), events);
      && (s.slots[i].state == Running && s.slots[j].state == Running ==> i == j)
      && (s.onCpu == Task(i) ==> s.slots[i].state == Running)
  {
    StartInv(cpu);
    RunKeeps(Start(cpu), events);
    var s := RunOf(Start(cpu), events);
    assert SlotOk(s, i) && SlotOk(s, j);
  }

  // ----- Contexts -----

  /** A task that loses the processor leaves with the context it had, whoever takes it away; nothing else
      touches the context of a task that has been started. */
  lemma LeavesWith(s: System, e: Event, i: nat)
    requires Inv(s) && i < TASKS && Live(s.slots[i].state)
    ensures var r := Step(s, e);
      && Live(r.slots[i].state)
      && if s.onCpu == Task(i) && r.onCpu != Task(i)
         then r.left[i] == if e.Waits? then s.cpu.(enabled := false) else s.cpu
         else r.left[i] == s.left[i]
  {
    assert SlotOk(s, i);
  }

  /** Task `i` is off the processor after each step of the run. */
  predicate StaysOff(s: System, events: seq<Event>, i: nat)
    requires Sized(s)
    decreases |events|
  {
    s.onCpu != Task(i) && (events == [] || StaysOff(Step(s, events[0]), events[1..], i))
  }

  lemma {:induction false} LeftStays(s: System, events: seq<Event>, i: nat) returns (r: System)
    requires Inv(s) && i < TASKS && Live(s.slots[i].state) && StaysOff(s, events, i)
    ensures r == RunOf(s, events) && Inv(r) && Live(r.slots[i].state) && r.left[i] == s.left[i] && r.onCpu != Task(i)
    decreases |events|
  {
    if events == [] {
      r := s;
    } else {
      StepKeeps(s, events[0]);
      LeavesWith(s, events[0], i);
      r := LeftStays(Step(s, events[0]), events[1..], i);
    }
  }

  /** A task resumes where it left: when the processor is given to it again, however long after and
      whatever ran in between, the context is the one it had when it was switched away from. */
  lemma ResumesWhereLeft(s: System, leave: Event, between: seq<Event>, back: Event, i: nat)
    requires Inv(s) && s.onCpu == Task(i) && StaysOff(Step(s, leave), between, i)
    requires Step(RunOf(Step(s, leave), between), back).onCpu == Task(i)
    ensures Step(RunOf(Step(s, leave), between), back).cpu == if leave.Waits? then s.cpu.(enabled := false) else s.cpu
  {
    assert SlotOk(s, i);
    StepKeeps(s, leave);
    LeavesWith(s, leave, i);
    var r := LeftStays(Step(s, leave), between, i);
    assert SlotOk(r, i);
  }

  /** A task that has been started first runs at its entry, and has asked for no interrupt. */
  lemma StartsAtEntry(s: System, i: nat, entry: Context, between: seq<Event>, first: Event)
    requires Inv(s) && i < TASKS && s.slots[i].state == New
    requires var r := Step(s, Launches(i, entry));
      StaysOff(r, between, i) && Step(RunOf(r, between), first).onCpu == Task(i)
    ensures Step(RunOf(Step(s, Launches(i, entry)), between), first).cpu == entry
    ensures Step(s, Launches(i, entry)).asked[i] == {}
  {
    assert SlotOk(s, i);
    StepKeeps(s, Launches(i, entry));
    var r := LeftStays(Step(s, Launches(i, entry)), between, i);
    assert SlotOk(r, i);
  }

  lemma RunSnoc(s: System, events: seq<Event>, e: Event)
    requires Sized(s)
    ensures RunOf(s, events + [e]) == Step(RunOf(s, events), e)
    decreases |events|
  {
    hide Step;
    if events == [] {
      assert RunOf(Step(s, e), []) == Step(s, e) && ([] + [e])[1..] == [];
    } else {
      RunSnoc(Step(s, events[0]), events[1..], e);
      assert (events + [e])[1..] == events[1..] + [e];
    }
  }

  /** While tasks have the processor the core's context is not touched; when one gives it back, the core
      goes on in it with interrupts off. */
  lemma CoreSaved(s: System, e: Event)
    requires Inv(s)
    ensures var r := Step(s, e);
      && (s.onCpu.Task? && r.onCpu.Task? ==> r.core == s.core)
      && (s.onCpu.Task? && !r.onCpu.Task? ==> r.cpu == s.core)
      && (!s.onCpu.Task? && r.onCpu.Task? ==> r.core == s.cpu.(enabled := false))
  {
  }

  /** An interrupt of the core itself leaves it where it was. */
  lemma CoreInterrupted(s: System, n: nat)
    requires Inv(s) && !s.onCpu.Task?
    ensures var r := Step(s, Interrupted(n)); r.cpu == s.cpu && r.point == s.point && r.onCpu == s.onCpu
  {
  }

  /** After events `..k` the core has the processor, and after every later one a task has it. */
  ghost predicate LastCore(cpu: Context, events: seq<Event>, k: nat) {
    && k < |events| && !RunOf(Start(cpu), events[..k]).onCpu.Task?
    && forall j {:trigger events[..j]} :: k < j <= |events| ==> RunOf(Start(cpu), events[..j]).onCpu.Task?
  }

  lemma {:induction false} CoreLeft(cpu: Context, events: seq<Event>) returns (k: nat)
    requires RunOf(Start(cpu), events).onCpu.Task?
    ensures LastCore(cpu, events, k)
    ensures RunOf(Start(cpu), events).core == RunOf(Start(cpu), events[..k]).cpu.(enabled := false)
    decreases |events|
  {
    hide Step;
    assert events != [];
    var before, e := events[..|events| - 1], events[|events| - 1];
    assert before + [e] == events && events[..|events|] == events;
    var s := RunOf(Start(cpu), before);
    StartInv(cpu);
    RunKeeps(Start(cpu), before);
    RunSnoc(Start(cpu), before, e);
    CoreSaved(s, e);
    if s.onCpu.Task? {
      k := CoreLeft(cpu, before);
      forall j | k < j <= |events| ensures RunOf(Start(cpu), events[..j]).onCpu.Task? {
        if j < |events| { assert before[..j] == events[..j]; }
      }
      assert before[..k] == events[..k];
    } else {
      k := |before|;
    }
  }

  /** In any run, when a step takes the processor from a task to the core, the core goes on with the context it had at
      its last dispatch, and interrupts off. */
  lemma CoreResumes(cpu: Context, events: seq<Event>, e: Event) returns (k: nat)
    requires RunOf(Start(cpu), events).onCpu.Task? && !RunOf(Start(cpu), events + [e]).onCpu.Task?
    ensures LastCore(cpu, events, k)
    ensures RunOf(Start(cpu), events + [e]).cpu == RunOf(Start(cpu), events[..k]).cpu.(enabled := false)
  {
    hide Step;
    StartInv(cpu);
    RunKeeps(Start(cpu), events);
    RunSnoc(Start(cpu), events, e);
    CoreSaved(RunOf(Start(cpu), events), e);
    k := CoreLeft(cpu, events);
  }

  // ----- Interrupts -----

  /** A task has asked for what it asked for since it was started. */
  lemma AskedSince(s: System, e: Event, i: nat)
    requires Inv(s) && i < TASKS && Live(s.slots[i].state)
    ensures Step(s, e).asked[i] == s.asked[i] + if e.Asks? && s.onCpu == Task(i) then {e.n} else {}
  {
    assert SlotOk(s, i);
  }

  /** Interrupt `n` makes exactly those waiting tasks runnable that asked for it, or for a number the
      bitmap does not tell from it; the state of every other task is as it was. */
  lemma WakesWhoAsked(s: System, n: nat, i: nat)
    requires Inv(s) && s.active != Null && i < TASKS
    ensures var r := Interrupt(s, n);
      r.slots[i].state == if s.slots[i].state == WaitInt && AskedFor(s.asked[i], n) then Run else s.slots[i].state
  {
    assert SlotOk(s, i);
    assert s.slots[i].state == WaitInt ==> (Hears(s.slots[i], n) <==> AskedFor(s.asked[i], n));
  }

  /** Below 0x80 the bitmap tells all numbers apart. */
  lemma WakesExactly(s: System, n: nat, i: nat)
    requires Inv(s) && s.active != Null && i < TASKS && n < 0x80 && forall m :: m in s.asked[i] ==> m < 0x80
    ensures Interrupt(s, n).slots[i].state == if s.slots[i].state == WaitInt && n in s.asked[i] then Run else s.slots[i].state
  {
    WakesWhoAsked(s, n, i);
    forall m: nat | m < 0x80 && Alike(m, n) ensures m == n { Apart(m, n); }
    if n in s.asked[i] { assert Alike(n, n); }
  }

  lemma Apart(m: nat, n: nat)
    requires m < 0x80 && n < 0x80 && Alike(m, n)
    ensures m == n
  {
  }

  /** ... and from 0x80 on it does not: a task that waits for 0x80 alone is woken by 0x60. */
  lemma HighNumbersAlias(s: System, i: nat)
    requires Inv(s) && s.active != Null && i < TASKS && s.slots[i].state == WaitInt && s.asked[i] == {0x80}
    ensures Interrupt(s, 0x60).slots[i].state == Run
  {
    WakesWhoAsked(s, 0x60, i);
    assert 0x80 in s.asked[i] && Alike(0x80, 0x60);
  }

  /** The timer takes the processor from a task and leaves it runnable: the core's next step makes it so,
      unless the task has gone to wait. */
  lemma Preempted(s: System, i: nat)
    requires Inv(s) && s.onCpu == Task(i) && s.cpu.enabled
    ensures var r := Interrupt(s, 0x28); r.onCpu == Core && CoreStep(r).slots[i].state == Run
    ensures CoreStep(Wait(s)).slots[i].state == WaitInt
  {
  }

  // ----- Fairness -----

  /** Slots the core tests before it comes to slot `i`. */
  function Ahead(s: System, i: nat): int
    requires Sized(s) && i < TASKS
  {
    var k := if s.point.Scan? then s.point.i else After(s.point.i);
    if k <= i then i - k else i + TASKS - k
  }

  predicate Tests(s: System, e: Event) { e.Steps? && !s.onCpu.Task? && s.point.Scan? }

  /** The step claims a task to be given the processor. */
  predicate Claims(s: System, e: Event)
    requires Sized(s)
  {
    Tests(s, e) && s.slots[s.point.i].state == Run
  }

  /** Slots tested, and tasks claimed, in a run. */
  function Tested(s: System, events: seq<Event>): nat
    requires Sized(s)
    decreases |events|
  {
    if events == [] then 0
    else (if Tests(s, events[0]) then 1 else 0) + Tested(Step(s, events[0]), events[1..])
  }

  function Dispatches(s: System, events: seq<Event>): nat
    requires Sized(s)
    decreases |events|
  {
    if events == [] then 0
    else (if Claims(s, events[0]) then 1 else 0) + Dispatches(Step(s, events[0]), events[1..])
  }

  /** Slot `i` is runnable and not claimed, all the run through. */
  predicate StaysRun(s: System, events: seq<Event>, i: nat)
    requires Sized(s) && i < TASKS
    decreases |events|
  {
    s.slots[i].state == Run && (events == [] || StaysRun(Step(s, events[0]), events[1..], i))
  }

  /** Only being claimed ends it. */
  lemma RunUntilClaimed(s: System, e: Event, i: nat)
    requires Inv(s) && i < TASKS && s.slots[i].state == Run
    ensures Step(s, e).slots[i].state == if Claims(s, e) && s.point.i == i then Running else Run
  {
    assert SlotOk(s, i);
  }

  /** Every slot tested brings the core one nearer to slot `i`. */
  lemma {:induction false} Nearer(s: System, events: seq<Event>, i: nat)
    requires Inv(s) && i < TASKS && StaysRun(s, events, i)
    ensures Ahead(RunOf(s, events), i) + Tested(s, events) == Ahead(s, i)
    ensures Dispatches(s, events) <= Tested(s, events)
    decreases |events|
  {
    if events != [] {
      var r := Step(s, events[0]);
      StepKeeps(s, events[0]);
      RunUntilClaimed(s, events[0], i);
      assert Ahead(r, i) == Ahead(s, i) - if Tests(s, events[0]) then 1 else 0;
      Nearer(r, events[1..], i);
    }
  }

  /** While a slot stays runnable the core gives the processor to at most 31 other tasks, and tests at
      most 31 slots: so if it keeps coming back from the tasks it switches to, the slot's turn comes. */
  lemma Fair(s: System, events: seq<Event>, i: nat)
    requires Inv(s) && i < TASKS && StaysRun(s, events, i)
    ensures Dispatches(s, events) <= 31 && Tested(s, events) <= 31
  {
    Nearer(s, events, i);
  }

  /** Once the core has tested 32 slots, whatever tasks it switched to in between, a slot that was runnable at the
      start has been claimed. */
  lemma {:induction false} ClaimedInTime(s: System, events: seq<Event>, i: nat) returns (k: nat)
    requires Inv(s) && i < TASKS && s.slots[i].state == Run && Tested(s, events) > Ahead(s, i)
    ensures k < |events|
    ensures var r := RunOf(s, events[..k]);
      && StaysRun(s, events[..k], i) && Claims(r, events[k]) && r.point.i == i && Step(r, events[k]).slots[i].state == Running
    ensures Dispatches(s, events[..k]) <= Tested(s, events[..k]) <= 31
    decreases |events|
  {
    var r := Step(s, events[0]);
    StepKeeps(s, events[0]);
    RunUntilClaimed(s, events[0], i);
    if Claims(s, events[0]) && s.point.i == i {
      k := 0;
    } else {
      assert Ahead(r, i) == Ahead(s, i) - if Tests(s, events[0]) then 1 else 0;
      k := ClaimedInTime(r, events[1..], i);
      assert events[..k + 1][1..] == events[1..][..k];
      k := k + 1;
    }
    Fair(s, events[..k], i);
  }

  // ----- The scheduler in place -----

  class Scheduler {
    const tasks: array<Slot>
    var active: Active
    var core: Context
    var cpu: Context
    var point: Point
    ghost var onCpu: Active
    ghost var left: seq<Context>
    ghost var asked: seq<set<nat>>

    ghost predicate Valid()
      reads this, tasks
    {
      tasks.Length == TASKS && Sized(State())
    }

    ghost function State(): System
      reads this, tasks
    {
      System(tasks[..], point, active, core, cpu, onCpu, left, asked)
    }

    constructor (context: Context)
      ensures Valid() && fresh(tasks) && State() == Start(context)
    {
      tasks := new Slot[TASKS](i => IDLE);
      active, core, cpu, point := Null, Context(0, false), context, Scan(0);
      onCpu, left, asked := Core, seq(TASKS, i => Context(0, false)), seq(TASKS, i => {});
      new;
      assert tasks[..] == Start(context).slots;
    }

    /** `_ixa_cmpxchg` on the state of a slot. */
    method CmpXchg(i: nat, from: TaskState, to: TaskState) returns (ok: bool)
      requires Valid() && i < TASKS
      modifies tasks
      ensures Valid() && ok == (old(tasks[i].state) == from)
      ensures State() == if ok then old(State()).(slots := old(tasks[..])[i := old(tasks[i]).(state := to)]) else old(State())
    {
      ok := tasks[i].state == from;
      if ok { tasks[i] := tasks[i].(state := to); }
    }

    method GetFree() returns (i: nat)
      requires Valid()
      modifies tasks
      ensures Valid() && State() == Reserve(old(State())) && i == FirstEmpty(old(tasks[..]))
    {
      i := 0;
      while i < TASKS
        invariant i <= TASKS && tasks[..] == old(tasks[..])
        invariant i + FirstEmpty(tasks[..][i..]) == FirstEmpty(tasks[..])
      {
        assert tasks[..][i..][0] == tasks[i] && tasks[..][i..][1..] == tasks[..][i + 1..];
        var ok := CmpXchg(i, Empty, New);
        if ok { return; }
        i := i + 1;
      }
    }

    /** `start`, once it has a slot. */
    method StartTask(i: nat, entry: Context)
      requires Valid() && i < TASKS
      modifies this, tasks
      ensures Valid() && State() == Launch(old(State()), i, entry)
    {
      tasks[i] := Slot(Run, entry, [{}, {}, {}, {}]);
      left, asked := left[i := entry], asked[i := {}];
    }

    method WakeTasks(n: nat)
      requires Valid()
      modifies tasks
      ensures Valid() && State() == old(State()).(slots := Wake(old(State()).slots, n))
    {
      var i := 0;
      while i < TASKS
        invariant i <= TASKS && forall j :: 0 <= j < TASKS ==> |old(tasks[j]).waits| == 4
        invariant forall j :: 0 <= j < TASKS ==> tasks[j] == if j < i then Woken(old(tasks[j]), n) else old(tasks[j])
      {
        assert old(tasks[i]) == old(State()).slots[i];
        if tasks[i].state == WaitInt && Bit(n) in tasks[i].waits[Word(n)] { tasks[i] := tasks[i].(state := Run); }
        i := i + 1;
      }
      assert tasks[..] == Wake(old(State()).slots, n);
    }

    method WakeOnInterrupt(n: nat)
      requires Valid() && active.Task?
      modifies this, tasks
      ensures Valid() && State() == Ask(old(State()), n)
    {
      var i, w := active.i, Word(n);
      assert |State().slots[i].waits| == 4;
      tasks[i] := tasks[i].(waits := tasks[i].waits[w := tasks[i].waits[w] + {Bit(n)}]);
      cpu := cpu.(enabled := true);
      asked := match onCpu case Task(j) => asked[j := asked[j] + {n}] case _ => asked;
    }

    /** `_ix_task_switch` and `_ix_task_switch_from_int` from `active_task` to the core. */
    method SwitchToCore()
      requires Valid()
      modifies this, tasks
      ensures Valid() && State() == ToCore(old(State()))
    {
      left := match onCpu case Task(j) => left[j := cpu] case _ => left;
      match active {
        case Task(i) => tasks[i] := tasks[i].(saved := cpu);
        case _ => core := cpu;
      }
      active, onCpu := Core, Core;
      cpu := core;
    }

    method WaitForInterrupts()
      requires Valid() && active.Task?
      modifies this, tasks
      ensures Valid() && State() == Wait(old(State()))
    {
      cpu := cpu.(enabled := false);
      tasks[active.i] := tasks[active.i].(state := WaitInt);
      SwitchToCore();
    }

    method FromInterrupt(n: nat)
      requires Valid()
      modifies this, tasks
      ensures Valid() && State() == Interrupt(old(State()), n)
    {
      if active == Null { return; }
      WakeTasks(n);
      if n != TIMER { return; }
      SwitchToCore();
    }

    /** One step of the loop in `run`; where it stands is `point`. */
    method RunStep()
      requires Valid() && onCpu != Task(point.i)
      modifies this, tasks
      ensures Valid() && State() == CoreStep(old(State()))
    {
      var i := point.i;
      match point
      case Scan(_) =>
        var ok := CmpXchg(i, Run, Running);
        point := if ok then Claimed(i) else Scan(After(i));
      case Claimed(_) =>
        active, core := Task(i), cpu.(enabled := false);
        cpu, onCpu, point := tasks[i].saved, Task(i), Away(i);
      case Away(_) =>
        var ok := CmpXchg(i, Running, Run);
        cpu, point := cpu.(enabled := true), Scan(After(i));
    }
  }
}
