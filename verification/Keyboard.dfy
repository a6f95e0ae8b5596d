/** The keyboard decoder (kernel/dev/keyboard.cpp): scan bytes in, key codes out, through a state
    machine that remembers the prefix bytes seen. The bit field `keycode` is a record of its fields and
    the bit set `mods` a set; `system_reset` is a count of requests. */
module Keyboards {
  import opened Wrappers

  const QUEUE_LEN := 16

  /** `keycode`: two code bytes, and the marks 0x10000 (break), 0x20000 (E0) and 0x40000 (E1). The
      decoder ORs each into a field that is still clear (`Begun`). */
  datatype Code = Code(low: Byte, high: Byte, up: bool, e0: bool, e1: bool) {
    function Value(): nat {
      low + 0x100 * high + (if up then 0x1_0000 else 0) + (if e0 then 0x2_0000 else 0) + (if e1 then 0x4_0000 else 0)
    }
  }

  const CLEAR := Code(0, 0, false, false, false)

  datatype Mod = LShift | RShift | LCtrl | RCtrl | LAlt | RAlt | LMeta | RMeta | App | VShift

  /** The modifier whose bit a code sets or clears: that of the code without break and E1 marks. */
  function ModOf(k: Code): set<Mod> {
    if k.high != 0 then {}
    else if k.e0 then
      match k.low
      case 0x14 => {RCtrl}
      case 0x11 => {RAlt}
      case 0x1f => {LMeta}
      case 0x27 => {RMeta}
      case 0x2f => {App}
      case 0x12 => {VShift}
      case _ => {}
    else
      match k.low
      case 0x12 => {LShift}
      case 0x59 => {RShift}
      case 0x14 => {LCtrl}
      case 0x11 => {LAlt}
      case _ => {}
  }

  /** The decoder's state; the queue holds the newest code first. */
  datatype Kbd = Kbd(state: nat, keycode: Code, mods: set<Mod>, queue: seq<nat>, last1: nat, last2: nat, resets: nat)

  function Push(q: seq<nat>, k: nat): (r: seq<nat>)
    ensures |r| == if |q| < QUEUE_LEN then |q| + 1 else QUEUE_LEN
  {
    if |q| < QUEUE_LEN then [k] + q else [k] + q[..QUEUE_LEN - 1]
  }

  /** Ctrl and Alt are held, either of each. */
  predicate CtrlAlt(mods: set<Mod>) { (LAlt in mods || RAlt in mods) && (LCtrl in mods || RCtrl in mods) }

  /** `key_down` and `key_up` on the code at hand. */
  function Down(k: Kbd): Kbd {
    k.(mods := k.mods + ModOf(k.keycode), queue := Push(k.queue, k.keycode.Value()), last1 := k.keycode.Value())
  }

  function Up(k: Kbd): Kbd {
    var mods := k.mods - ModOf(k.keycode);
    k.(mods := mods, queue := Push(k.queue, k.keycode.Value()), last2 := k.last1, last1 := k.keycode.Value(),
       resets := if CtrlAlt(mods) && k.keycode.Value() == 0x30071 then k.resets + 1 else k.resets)
  }

  /** `port_data` for one byte. */
  function Step(k: Kbd, c: Byte): Kbd {
    if c > 0xf0 then k
    else
      var low, high := k.keycode.(low := c), k.keycode.(high := c);
      match k.state
      case 0 =>
        if c == 0xe0 then k.(state := 2, keycode := CLEAR.(e0 := true))
        else if c == 0xe1 then k.(state := 4, keycode := CLEAR.(e1 := true))
        else if c == 0xf0 then k.(state := 1, keycode := CLEAR.(up := true))
        else Down(k.(keycode := CLEAR.(low := c)))
      case 1 => Up(k.(keycode := low, state := 0))
      case 2 => if c == 0xf0 then k.(state := 3, keycode := k.keycode.(up := true)) else Down(k.(keycode := low, state := 0))
      case 3 => Up(k.(keycode := low, state := 0))
      case 4 => if c == 0xf0 then k.(state := 6, keycode := k.keycode.(up := true)) else k.(keycode := low, state := 5)
      case 5 => Down(k.(keycode := high, state := 0))
      case 6 => k.(state := 7, keycode := low)
      case 7 => if c == 0xf0 then k.(state := 8) else Down(k.(keycode := high, state := 0))
      case 8 => Up(k.(keycode := high, state := 0))
      case _ => k
  }

  function Run(k: Kbd, bytes: seq<Byte>): Kbd
    decreases |bytes|
  {
    if bytes == [] then k else Run(Step(k, bytes[0]), bytes[1..])
  }

  // ----- Key events -----

  /** What the keyboard says: a key of the plain, E0 or E1 set made or broken. An E1 key has two code
      bytes, and a third form in which only the first is marked as a break. */
  datatype Event =
    | Make(c: Byte) | Break(c: Byte)
    | Make0(c: Byte) | Break0(c: Byte)
    | Make1(c: Byte, d: Byte) | Toggle1(c: Byte, d: Byte) | Break1(c: Byte, d: Byte)
  {
    /** No byte is a control code, or stands where it would be taken for a prefix. */
    predicate Valid() {
      match this
      case Make(c) => c < 0xf0 && c != 0xe0 && c != 0xe1
      case Break(c) => c <= 0xf0
      case Make0(c) => c < 0xf0
      case Break0(c) => c <= 0xf0
      case Make1(c, d) => c < 0xf0 && d <= 0xf0
      case Toggle1(c, d) => c <= 0xf0 && d < 0xf0
      case Break1(c, d) => c <= 0xf0 && d <= 0xf0
    }

    function Bytes(): (b: seq<Byte>)
      ensures 0 < |b| <= 5
    {
      match this
      case Make(c) => [c]
      case Break(c) => [0xf0, c]
      case Make0(c) => [0xe0, c]
      case Break0(c) => [0xe0, 0xf0, c]
      case Make1(c, d) => [0xe1, c, d]
      case Toggle1(c, d) => [0xe1, 0xf0, c, d]
      case Break1(c, d) => [0xe1, 0xf0, c, 0xf0, d]
    }

    function KeyCode(): Code {
      match this
      case Make(c) => Code(c, 0, false, false, false)
      case Break(c) => Code(c, 0, true, false, false)
      case Make0(c) => Code(c, 0, false, true, false)
      case Break0(c) => Code(c, 0, true, true, false)
      case Make1(c, d) => Code(c, d, false, false, true)
      case Toggle1(c, d) => Code(c, d, true, false, true)
      case Break1(c, d) => Code(c, d, true, false, true)
    }

    predicate IsDown() { Make? || Make0? || Make1? || Toggle1? }
  }

  function Encode(events: seq<Event>): seq<Byte>
    decreases |events|
  {
    if events == [] then [] else events[0].Bytes() + Encode(events[1..])
  }

  predicate AllValid(events: seq<Event>) { forall e :: e in events ==> e.Valid() }

  /** The bytes that are not control codes. */
  function Scans(bytes: seq<Byte>): seq<Byte>
    decreases |bytes|
  {
    if bytes == [] then [] else if bytes[0] > 0xf0 then Scans(bytes[1..]) else [bytes[0]] + Scans(bytes[1..])
  }

  /** What an event does to the keyboard, told without bytes. */
  function Hit(k: Kbd, e: Event): Kbd {
    var k1 := k.(keycode := e.KeyCode(), state := 0);
    if e.IsDown() then Down(k1) else Up(k1)
  }

  function Hits(k: Kbd, events: seq<Event>): Kbd
    decreases |events|
  {
    if events == [] then k else Hit(Hits(k, events[..|events| - 1]), events[|events| - 1])
  }

  lemma RunCons(k: Kbd, c: Byte, rest: seq<Byte>)
    ensures Run(k, [c] + rest) == Run(Step(k, c), rest)
  {
    assert ([c] + rest)[1..] == rest;
  }

  lemma {:induction false} RunAppend(k: Kbd, a: seq<Byte>, b: seq<Byte>)
    ensures Run(k, a + b) == Run(Run(k, a), b)
    decreases |a|
  {
    hide Step;
    if a == [] {
      assert a + b == b;
    } else {
      RunAppend(Step(k, a[0]), a[1..], b);
      RunCons(k, a[0], a[1..] + b);
      assert a + b == [a[0]] + (a[1..] + b);
    }
  }

  lemma RunSnoc(k: Kbd, a: seq<Byte>, c: Byte)
    ensures Run(k, a + [c]) == Step(Run(k, a), c)
  {
    hide Step;
    RunAppend(k, a, [c]);
    RunCons(Run(k, a), c, []);
    assert [c] + [] == [c];
  }

  lemma RunShort(k: Kbd, a: Byte, b: Byte, c: Byte, d: Byte, e: Byte)
    ensures Run(k, [a]) == Step(k, a)
    ensures Run(k, [a, b]) == Step(Step(k, a), b)
    ensures Run(k, [a, b, c]) == Step(Step(Step(k, a), b), c)
    ensures Run(k, [a, b, c, d]) == Step(Step(Step(Step(k, a), b), c), d)
    ensures Run(k, [a, b, c, d, e]) == Step(Step(Step(Step(Step(k, a), b), c), d), e)
  {
    hide Step;
    RunSnoc(k, [], a);
    RunSnoc(k, [a], b);
    RunSnoc(k, [a, b], c);
    RunSnoc(k, [a, b, c], d);
    RunSnoc(k, [a, b, c, d], e);
    assert [] + [a] == [a] && [a] + [b] == [a, b] && [a, b] + [c] == [a, b, c];
    assert [a, b, c] + [d] == [a, b, c, d] && [a, b, c, d] + [e] == [a, b, c, d, e];
  }

  lemma EventDecodes(k: Kbd, e: Event)
    requires k.state == 0 && e.Valid()
    ensures Run(k, e.Bytes()) == Hit(k, e)
  {
    hide Run, Down, Up;
    match e
    case Make(c) => RunShort(k, c, 0, 0, 0, 0);
    case Break(c) => RunShort(k, 0xf0, c, 0, 0, 0);
    case Make0(c) => RunShort(k, 0xe0, c, 0, 0, 0);
    case Break0(c) => RunShort(k, 0xe0, 0xf0, c, 0, 0);
    case Make1(c, d) => RunShort(k, 0xe1, c, d, 0, 0);
    case Toggle1(c, d) => RunShort(k, 0xe1, 0xf0, c, d, 0);
    case Break1(c, d) => RunShort(k, 0xe1, 0xf0, c, 0xf0, d);
  }

  /** Control codes anywhere in the stream change nothing. */
  lemma {:induction false} ControlsIgnored(k: Kbd, bytes: seq<Byte>)
    ensures Run(k, bytes) == Run(k, Scans(bytes))
    decreases |bytes|
  {
    if bytes != [] {
      ControlsIgnored(Step(k, bytes[0]), bytes[1..]);
      if bytes[0] <= 0xf0 { RunCons(k, bytes[0], Scans(bytes[1..])); }
    }
  }

  lemma {:induction false} EncodeSnoc(events: seq<Event>, e: Event)
    ensures Encode(events + [e]) == Encode(events) + e.Bytes()
    decreases |events|
  {
    if events == [] {
      assert [e][1..] == [] && [] + [e] == [e];
    } else {
      var a, b, c := events[0].Bytes(), Encode(events[1..]), e.Bytes();
      EncodeSnoc(events[1..], e);
      assert (events + [e])[1..] == events[1..] + [e] && (events + [e])[0] == events[0];
      assert a + (b + c) == a + b + c;
    }
  }

  lemma {:induction false} EncodedDecodes(k: Kbd, events: seq<Event>)
    requires k.state == 0 && AllValid(events)
    ensures Run(k, Encode(events)) == Hits(k, events) && Hits(k, events).state == 0
    decreases |events|
  {
    if events != [] {
      hide Hit, Step;
      var before, e := events[..|events| - 1], events[|events| - 1];
      EncodedDecodes(k, before);
      EncodeSnoc(before, e);
      assert before + [e] == events;
      RunAppend(k, Encode(before), e.Bytes());
      EventDecodes(Hits(k, before), e);
      HitReady(Hits(k, before), e);
    }
  }

  lemma HitReady(k: Kbd, e: Event)
    ensures Hit(k, e).state == 0
  {
  }

  /** Whatever events a stream encodes, with control codes strewn in anywhere, the decoder does what
      those events do, and is ready for the next. */
  lemma StreamDecodes(k: Kbd, bytes: seq<Byte>, events: seq<Event>)
    requires k.state == 0 && AllValid(events) && Scans(bytes) == Encode(events)
    ensures Run(k, bytes) == Hits(k, events) && Run(k, bytes).state == 0
  {
    ControlsIgnored(k, bytes);
    EncodedDecodes(k, events);
  }

  // ----- Every stream is a sequence of events and the start of one more -----

  /** The bytes that bring the decoder from state 0 to state `n` with code `k`. */
  function Pending(n: nat, k: Code): seq<Byte> {
    match n
    case 1 => [0xf0]
    case 2 => [0xe0]
    case 3 => [0xe0, 0xf0]
    case 4 => [0xe1]
    case 5 => [0xe1, k.low]
    case 6 => [0xe1, 0xf0]
    case 7 => [0xe1, 0xf0, k.low]
    case 8 => [0xe1, 0xf0, k.low, 0xf0]
    case _ => []
  }

  /** The code at hand is made of the pending bytes. */
  predicate Begun(k: Kbd) {
    match k.state
    case 0 => true
    case 1 => k.keycode == CLEAR.(up := true)
    case 2 => k.keycode == CLEAR.(e0 := true)
    case 3 => k.keycode == CLEAR.(e0 := true, up := true)
    case 4 => k.keycode == CLEAR.(e1 := true)
    case 5 => k.keycode == Code(k.keycode.low, 0, false, false, true) && k.keycode.low < 0xf0
    case 6 => k.keycode == CLEAR.(e1 := true, up := true)
    case 7 => k.keycode == Code(k.keycode.low, 0, true, false, true) && k.keycode.low <= 0xf0
    case 8 => k.keycode == Code(k.keycode.low, 0, true, false, true) && k.keycode.low <= 0xf0
    case _ => false
  }

  /** The event that byte `c` completes. */
  function Completed(k: Kbd, c: Byte): Event {
    match k.state
    case 0 => Make(c)
    case 1 => Break(c)
    case 2 => Make0(c)
    case 3 => Break0(c)
    case 5 => Make1(k.keycode.low, c)
    case 7 => Toggle1(k.keycode.low, c)
    case _ => Break1(k.keycode.low, c)
  }

  /** A scan byte either completes an event or is one more pending byte. */
  lemma StepPending(k: Kbd, c: Byte)
    requires Begun(k) && c <= 0xf0
    ensures var r, now := Step(k, c), Pending(k.state, k.keycode) + [c];
      && Begun(r)
      && if r.state == 0 then Completed(k, c).Valid() && now == Completed(k, c).Bytes()
         else now == Pending(r.state, r.keycode)
  {
  }

  /** Every stream of scan bytes is, in exactly one way the decoder takes it, a sequence of events
      followed by the pending bytes of its state. */
  lemma {:induction false} StreamIsEvents(k: Kbd, bytes: seq<Byte>) returns (events: seq<Event>)
    requires k.state == 0
    ensures AllValid(events) && Begun(Run(k, bytes))
    ensures var r := Run(k, bytes); Scans(bytes) == Encode(events) + Pending(r.state, r.keycode)
    decreases |bytes|
  {
    if bytes == [] {
      events := [];
    } else {
      hide Step;
      var before, c := bytes[..|bytes| - 1], bytes[|bytes| - 1];
      events := StreamIsEvents(k, before);
      assert before + [c] == bytes;
      RunSnoc(k, before, c);
      ScansSnoc(before, c);
      var k1 := Run(k, before);
      if c <= 0xf0 {
        StepPending(k1, c);
        assert Encode(events) + Pending(k1.state, k1.keycode) + [c] == Encode(events) + (Pending(k1.state, k1.keycode) + [c]);
        if Step(k1, c).state == 0 {
          EncodeSnoc(events, Completed(k1, c));
          events := events + [Completed(k1, c)];
        }
      } else {
        ControlSkipped(k1, c);
      }
    }
  }

  lemma ControlSkipped(k: Kbd, c: Byte)
    requires c > 0xf0
    ensures Step(k, c) == k
  {
  }

  lemma {:induction false} ScansSnoc(bytes: seq<Byte>, c: Byte)
    ensures Scans(bytes + [c]) == Scans(bytes) + if c > 0xf0 then [] else [c]
    decreases |bytes|
  {
    if bytes == [] {
      assert [] + [c] == [c] && [c][1..] == [];
    } else {
      ScansSnoc(bytes[1..], c);
      assert (bytes + [c])[1..] == bytes[1..] + [c];
    }
  }

  /** The decoder is back in state 0 exactly when the stream encodes whole events. */
  lemma WholeEvents(k: Kbd, bytes: seq<Byte>)
    requires k.state == 0
    ensures Run(k, bytes).state == 0 <==> exists events :: AllValid(events) && Scans(bytes) == Encode(events)
  {
    var events := StreamIsEvents(k, bytes);
    if Run(k, bytes).state == 0 { assert Scans(bytes) == Encode(events) + [] == Encode(events); }
    if es :| AllValid(es) && Scans(bytes) == Encode(es) { StreamDecodes(k, bytes, es); }
  }

  // ----- Modifiers -----

  /** The make or break of plain key `c`, or of the E1 key `c` 0, which the decoder does not tell from it. */
  predicate Makes(e: Event, c: Byte) { e == Make(c) || e == Make1(c, 0) || e == Toggle1(c, 0) }

  predicate Breaks(e: Event, c: Byte) { e == Break(c) || e == Break1(c, 0) }

  /** The events that press the key of a modifier, and those that release it. */
  predicate Presses(e: Event, m: Mod) {
    match m
    case LShift => Makes(e, 0x12)
    case RShift => Makes(e, 0x59)
    case LCtrl => Makes(e, 0x14)
    case RCtrl => e == Make0(0x14)
    case LAlt => Makes(e, 0x11)
    case RAlt => e == Make0(0x11)
    case LMeta => e == Make0(0x1f)
    case RMeta => e == Make0(0x27)
    case App => e == Make0(0x2f)
    case VShift => e == Make0(0x12)
  }

  predicate Releases(e: Event, m: Mod) {
    match m
    case LShift => Breaks(e, 0x12)
    case RShift => Breaks(e, 0x59)
    case LCtrl => Breaks(e, 0x14)
    case RCtrl => e == Break0(0x14)
    case LAlt => Breaks(e, 0x11)
    case RAlt => e == Break0(0x11)
    case LMeta => e == Break0(0x1f)
    case RMeta => e == Break0(0x27)
    case App => e == Break0(0x2f)
    case VShift => e == Break0(0x12)
  }

  /** Of the events that press or release modifier `m` the last was a press. */
  predicate Held(events: seq<Event>, m: Mod)
    decreases |events|
  {
    events != [] &&
    (var e := events[|events| - 1];
     Presses(e, m) || (!Releases(e, m) && Held(events[..|events| - 1], m)))
  }

  lemma HitMod(k: Kbd, e: Event, m: Mod)
    ensures m in Hit(k, e).mods <==> Presses(e, m) || (!Releases(e, m) && m in k.mods)
  {
    hide Push, Code.Value;
  }

  /** A modifier bit is set exactly while its key is held. */
  lemma {:induction false} ModsAreHeld(k: Kbd, events: seq<Event>, m: Mod)
    requires k.mods == {}
    ensures m in Hits(k, events).mods <==> Held(events, m)
    decreases |events|
  {
    hide Hit, Presses, Releases;
    if events != [] {
      ModsAreHeld(k, events[..|events| - 1], m);
      HitMod(Hits(k, events[..|events| - 1]), events[|events| - 1], m);
    }
  }

  /** A reset is requested by the break of E0 71 with Ctrl and Alt held, and by nothing else. */
  lemma ResetOnCtrlAltDel(k: Kbd, events: seq<Event>, e: Event)
    requires k.mods == {} && e.Valid()
    ensures Hits(k, events + [e]).resets == Hits(k, events).resets +
      if e == Break0(0x71) && (Held(events, LCtrl) || Held(events, RCtrl)) && (Held(events, LAlt) || Held(events, RAlt))
      then 1 else 0
  {
    hide Hit, Presses, Releases;
    assert (events + [e])[..|events|] == events;
    forall m: Mod ensures m in Hits(k, events).mods <==> Held(events, m) { ModsAreHeld(k, events, m); }
    HitReset(Hits(k, events), e);
  }

  lemma HitReset(k: Kbd, e: Event)
    requires e.Valid()
    ensures Hit(k, e).resets == k.resets + if e == Break0(0x71) && CtrlAlt(k.mods) then 1 else 0
  {
    hide Push, CtrlAlt;
    if !e.IsDown() && e.KeyCode().Value() == 0x30071 { assert e == Break0(0x71) && k.mods - ModOf(e.KeyCode()) == k.mods; }
  }

  // ----- The queue -----

  /** The number an event leaves in the queue. */
  function Number(e: Event): nat {
    match e
    case Make(c) => c
    case Break(c) => 0x1_0000 + c
    case Make0(c) => 0x2_0000 + c
    case Break0(c) => 0x3_0000 + c
    case Make1(c, d) => 0x4_0000 + 0x100 * d + c
    case Toggle1(c, d) => 0x5_0000 + 0x100 * d + c
    case Break1(c, d) => 0x5_0000 + 0x100 * d + c
  }

  function Codes(events: seq<Event>): seq<nat> {
    seq(|events|, i requires 0 <= i < |events| => Number(events[i]))
  }

  function Reverse(s: seq<nat>): (r: seq<nat>)
    ensures |r| == |s|
    decreases |s|
  {
    if s == [] then [] else [s[|s| - 1]] + Reverse(s[..|s| - 1])
  }

  /** The last codes, at most as many as the queue holds. */
  function Tail(s: seq<nat>): seq<nat> { if |s| <= QUEUE_LEN then s else s[|s| - QUEUE_LEN..] }

  lemma {:induction false} ReverseAt(s: seq<nat>, i: nat)
    requires i < |s|
    ensures Reverse(s)[i] == s[|s| - 1 - i]
    decreases |s|
  {
    if i > 0 { ReverseAt(s[..|s| - 1], i - 1); }
  }

  lemma PushReversed(s: seq<nat>, x: nat)
    ensures Push(Reverse(Tail(s)), x) == Reverse(Tail(s + [x]))
  {
    var q, r := Push(Reverse(Tail(s)), x), Reverse(Tail(s + [x]));
    forall i: nat | i < |r| ensures q[i] == r[i] {
      ReverseAt(Tail(s + [x]), i);
      if i > 0 { ReverseAt(Tail(s), i - 1); }
    }
  }

  lemma HitQueue(k: Kbd, e: Event)
    ensures Hit(k, e).queue == Push(k.queue, Number(e))
  {
    hide Push;
  }

  /** The queue holds the last sixteen codes pushed, so popping from its end is first in, first out. */
  lemma {:induction false} QueueIsTail(k: Kbd, events: seq<Event>)
    requires k.queue == []
    ensures Hits(k, events).queue == Reverse(Tail(Codes(events)))
    decreases |events|
  {
    hide Tail, Reverse, Push, Hit, Codes, Number;
    if events == [] {
      NoCodes();
    } else {
      var before, e := events[..|events| - 1], events[|events| - 1];
      QueueIsTail(k, before);
      HitQueue(Hits(k, before), e);
      PushReversed(Codes(before), Number(e));
      CodesSnoc(events);
    }
  }

  lemma NoCodes()
    ensures Reverse(Tail(Codes([]))) == []
  {
  }

  lemma CodesSnoc(events: seq<Event>)
    requires events != []
    ensures Codes(events) == Codes(events[..|events| - 1]) + [Number(events[|events| - 1])]
  {
    hide Number;
  }

  /** `lastkey1` is the last code, and after a break `lastkey2` the one before it. */
  lemma LastKeys(k: Kbd, events: seq<Event>, e: Event, f: Event)
    ensures Hits(k, events + [e]).last1 == Number(e)
    ensures !f.IsDown() ==> Hits(k, events + [e] + [f]).last2 == Number(e)
  {
    assert (events + [e])[..|events|] == events && (events + [e] + [f])[..|events| + 1] == events + [e];
    HitKeys(Hits(k, events), e);
    HitKeys(Hits(k, events + [e]), f);
  }

  lemma HitKeys(k: Kbd, e: Event)
    ensures Hit(k, e).last1 == Number(e)
    ensures !e.IsDown() ==> Hit(k, e).last2 == k.last1
  {
    hide Push;
  }

  // ----- The decoder in place -----

  class Keyboard {
    const keybuf: array<nat>
    var state: nat
    var keycode: Code
    var mods: set<Mod>
    var keyev: nat
    var lastkey1: nat
    var lastkey2: nat
    var lastscan: Byte
    var resets: nat

    ghost predicate Valid()
      reads this
    {
      keybuf.Length == QUEUE_LEN && keyev <= QUEUE_LEN && state <= 8
    }

    ghost function State(): Kbd
      requires Valid()
      reads this, keybuf
    {
      Kbd(state, keycode, mods, keybuf[..keyev], lastkey1, lastkey2, resets)
    }

    constructor ()
      ensures Valid() && fresh(keybuf) && State() == Kbd(0, CLEAR, {}, [], 0, 0, 0)
    {
      keybuf := new nat[QUEUE_LEN](i => 0);
      state, keycode, mods, keyev, lastkey1, lastkey2, lastscan, resets := 0, CLEAR, {}, 0, 0, 0, 0, 0;
    }

    method PushKey(k: nat)
      requires Valid()
      modifies keybuf, `keyev
      ensures Valid() && keybuf[..keyev] == Push(old(keybuf[..keyev]), k)
    {
      var i := QUEUE_LEN - 1;
      while i > 0
        invariant 0 <= i < QUEUE_LEN && keyev == old(keyev)
        invariant keybuf[..i + 1] == old(keybuf[..i + 1])
        invariant forall j :: i < j < QUEUE_LEN ==> keybuf[j] == old(keybuf[j - 1])
      {
        keybuf[i] := keybuf[i - 1];
        i := i - 1;
      }
      keybuf[0] := k;
      if keyev < QUEUE_LEN { keyev := keyev + 1; }
      ghost var q, r := Push(old(keybuf[..keyev]), k), keybuf[..keyev];
      forall j | 0 <= j < |r| ensures q[j] == r[j] {
        assert r[j] == keybuf[j];
        if j > 0 { assert keybuf[j] == old(keybuf[j - 1]) == old(keybuf[..keyev])[j - 1]; }
      }
      assert q == r;
    }

    /** The oldest code queued, or 0. */
    method PopKey() returns (k: nat)
      requires Valid()
      modifies `keyev
      ensures Valid() && if old(keyev) == 0 then k == 0 && keyev == 0
                         else old(keybuf[..keyev]) == keybuf[..keyev] + [k]
    {
      if keyev > 0 {
        keyev := keyev - 1;
        k := keybuf[keyev];
      } else {
        k := 0;
      }
    }

    method HasKey() returns (b: bool)
      requires Valid()
      ensures b <==> State().queue != []
    {
      b := keyev > 0;
    }

    method KeyDown()
      requires Valid()
      modifies this, keybuf
      ensures Valid() && State() == Down(old(State())) && lastscan == old(lastscan)
    {
      mods := mods + ModOf(keycode);
      PushKey(keycode.Value());
      lastkey1 := keycode.Value();
    }

    method KeyUp()
      requires Valid()
      modifies this, keybuf
      ensures Valid() && State() == Up(old(State())) && lastscan == old(lastscan)
    {
      mods := mods - ModOf(keycode);
      PushKey(keycode.Value());
      if CtrlAlt(mods) && keycode.Value() == 0x30071 { resets := resets + 1; }
      lastkey2 := lastkey1;
      lastkey1 := keycode.Value();
    }

    method PortData(c: Byte)
      requires Valid()
      modifies this, keybuf
      ensures Valid() && State() == Step(old(State()), c) && lastscan == c
    {
      hide Down, Up;
      lastscan := c;
      if c > 0xf0 { return; }
      match state
      case 0 =>
        keycode := CLEAR;
        if c == 0xe0 {
          state, keycode := 2, keycode.(e0 := true);
        } else if c == 0xe1 {
          state, keycode := 4, keycode.(e1 := true);
        } else if c == 0xf0 {
          state, keycode := 1, keycode.(up := true);
        } else {
          keycode := keycode.(low := c);
          KeyDown();
        }
      case 2 =>
        if c == 0xf0 {
          state, keycode := 3, keycode.(up := true);
        } else {
          keycode, state := keycode.(low := c), 0;
          KeyDown();
        }
      case 4 =>
        if c == 0xf0 {
          state, keycode := 6, keycode.(up := true);
        } else {
          keycode, state := keycode.(low := c), 5;
        }
      case 5 =>
        keycode, state := keycode.(high := c), 0;
        KeyDown();
      case 6 =>
        state, keycode := 7, keycode.(low := c);
      case 7 =>
        if c == 0xf0 {
          state := 8;
        } else {
          keycode, state := keycode.(high := c), 0;
          KeyDown();
        }
      case 8 =>
        keycode, state := keycode.(high := c), 0;
        KeyUp();
      case _ =>
        keycode, state := keycode.(low := c), 0;
        KeyUp();
    }
  }
}
