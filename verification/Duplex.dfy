/** Both directions of one execution at once: standard input going down to the
    child, its output coming up to the client, every lane bounded. The client
    writes a stdin frame inside a branch of its select loop and reads no event
    frame meanwhile; the child may refuse to read on until its output is taken.
    Counted in frames; a direction is the sequence of what its lanes hold. */
module Duplex {
  import opened Prelude
  import P = StdinPipeline

  /** The lanes' places, most upstream first, and the child: how many pieces of
      output it has for `k` frames read, and whether it waits for them to be
      taken before it reads on. */
  datatype Plan = Plan(down: seq<nat>, up: seq<nat>, says: nat -> nat, waits: bool)

  datatype Duplex = Duplex(
    input: nat,                     // frames the client has still to read
    down: seq<nat>,                 // the first lane is the client's hand
    got: nat,                       // frames the child has read
    wrote: nat,                     // pieces the child has written
    up: seq<nat>,
    shown: nat)                     // pieces the client has shown

  datatype Event = Take | Down(i: nat) | ChildRead | ChildWrite | Up(i: nat) | Show

  ghost predicate Grows(says: nat -> nat) {
    forall a: nat, b: nat | a <= b :: says(a) <= says(b)
  }

  ghost predicate Proper(plan: Plan) {
    && plan.down != [] && plan.down[0] == 1 && plan.up != [] && Grows(plan.says)
    && (forall i | 0 <= i < |plan.down| :: plan.down[i] > 0)
    && (forall i | 0 <= i < |plan.up| :: plan.up[i] > 0)
  }

  function Empty(lanes: seq<nat>): seq<nat> {
    seq(|lanes|, _ => 0)
  }

  function Start(plan: Plan, input: nat): Duplex {
    Duplex(input, Empty(plan.down), 0, 0, Empty(plan.up), 0)
  }

  ghost predicate Fits(q: seq<nat>, lanes: seq<nat>) {
    |q| == |lanes| && forall i | 0 <= i < |q| :: q[i] <= lanes[i]
  }

  ghost predicate Within(plan: Plan, s: Duplex) {
    Proper(plan) && Fits(s.down, plan.down) && Fits(s.up, plan.up)
  }

  /** One frame from lane `i` to the next. */
  predicate CanPass(q: seq<nat>, lanes: seq<nat>, i: nat) {
    i + 1 < |q| <= |lanes| && q[i] > 0 && q[i + 1] < lanes[i + 1]
  }

  function Pass(q: seq<nat>, i: nat): seq<nat>
    requires i + 1 < |q| && q[i] > 0
  {
    q[i := q[i] - 1][i + 1 := q[i + 1] + 1]
  }

  predicate CanEnter(q: seq<nat>, lanes: seq<nat>) {
    q != [] && lanes != [] && q[0] < lanes[0]
  }

  function Enter(q: seq<nat>): seq<nat>
    requires q != []
  {
    q[0 := q[0] + 1]
  }

  predicate CanLeave(q: seq<nat>) {
    q != [] && q[|q| - 1] > 0
  }

  function Leave(q: seq<nat>): seq<nat>
    requires CanLeave(q)
  {
    q[|q| - 1 := q[|q| - 1] - 1]
  }

  /** The client is inside its stdin branch, writing the frame in its hand. */
  predicate Writing(s: Duplex) {
    s.down != [] && s.down[0] > 0
  }

  predicate Enabled(plan: Plan, s: Duplex, e: Event) {
    match e
    case Take => s.input > 0 && CanEnter(s.down, plan.down)
    case Down(i) => CanPass(s.down, plan.down, i)
    case ChildRead => CanLeave(s.down) && (plan.waits ==> s.wrote >= plan.says(s.got))
    case ChildWrite => s.wrote < plan.says(s.got) && CanEnter(s.up, plan.up)
    case Up(i) => CanPass(s.up, plan.up, i)
    case Show => !Writing(s) && CanLeave(s.up)
  }

  function Next(plan: Plan, s: Duplex, e: Event): Duplex
    requires Enabled(plan, s, e)
  {
    match e
    case Take => s.(input := s.input - 1, down := Enter(s.down))
    case Down(i) => s.(down := Pass(s.down, i))
    case ChildRead => s.(down := Leave(s.down), got := s.got + 1)
    case ChildWrite => s.(wrote := s.wrote + 1, up := Enter(s.up))
    case Up(i) => s.(up := Pass(s.up, i))
    case Show => s.(up := Leave(s.up), shown := s.shown + 1)
  }

  function Run(plan: Plan, s: Duplex, events: seq<Event>): Option<Duplex>
    decreases |events|
  {
    if events == [] then Some(s)
    else if Enabled(plan, s, events[0]) then Run(plan, Next(plan, s, events[0]), events[1..])
    else None
  }

  ghost predicate Stuck(plan: Plan, s: Duplex) {
    forall e :: !Enabled(plan, s, e)
  }

  /** Everything arrived. */
  predicate Idle(plan: Plan, s: Duplex) {
    s.input == 0 && s.down == Empty(plan.down) && s.wrote >= plan.says(s.got) && s.up == Empty(plan.up)
  }

  /** Everything is full: the client writes, so it reads nothing; the child has
      output to write, so it reads nothing. */
  predicate Wedged(plan: Plan, s: Duplex) {
    s.down == plan.down && s.up == plan.up && plan.waits && s.wrote < plan.says(s.got)
  }

  // -- what a state that cannot move looks like -------------------------------

  /** Behind a full lane that passes nothing on everything is full. */
  lemma {:induction false} FullBehind(q: seq<nat>, lanes: seq<nat>, k: nat)
    requires Fits(q, lanes) && k < |q| && (forall i | 0 <= i < |lanes| :: lanes[i] > 0)
    requires q[0] == lanes[0] && forall i: nat :: !CanPass(q, lanes, i)
    ensures q[k] == lanes[k]
  {
    if k > 0 {
      FullBehind(q, lanes, k - 1);
      assert !CanPass(q, lanes, k - 1);
    }
  }

  /** In front of an empty last lane everything is empty. */
  lemma {:induction false} EmptyBefore(q: seq<nat>, lanes: seq<nat>, k: nat)
    requires Fits(q, lanes) && k < |q| && (forall i | 0 <= i < |lanes| :: lanes[i] > 0)
    requires q[|q| - 1] == 0 && forall i: nat :: !CanPass(q, lanes, i)
    ensures q[k] == 0
    decreases |q| - k
  {
    if k < |q| - 1 {
      EmptyBefore(q, lanes, k + 1);
      assert !CanPass(q, lanes, k);
    }
  }

  lemma AllFull(q: seq<nat>, lanes: seq<nat>)
    requires Fits(q, lanes) && lanes != [] && (forall i | 0 <= i < |lanes| :: lanes[i] > 0)
    requires q[0] == lanes[0] && forall i: nat :: !CanPass(q, lanes, i)
    ensures q == lanes
  {
    forall k | 0 <= k < |q|
      ensures q[k] == lanes[k]
    {
      FullBehind(q, lanes, k);
    }
  }

  lemma AllEmpty(q: seq<nat>, lanes: seq<nat>)
    requires Fits(q, lanes) && lanes != [] && (forall i | 0 <= i < |lanes| :: lanes[i] > 0)
    requires q[|q| - 1] == 0 && forall i: nat :: !CanPass(q, lanes, i)
    ensures q == Empty(lanes)
  {
    forall k | 0 <= k < |q|
      ensures q[k] == 0
    {
      EmptyBefore(q, lanes, k);
    }
  }

  lemma NoPasses(plan: Plan, s: Duplex)
    requires forall e :: e != Show ==> !Enabled(plan, s, e)
    ensures forall i: nat :: !CanPass(s.down, plan.down, i) && !CanPass(s.up, plan.up, i)
  {
    forall i: nat
      ensures !CanPass(s.down, plan.down, i) && !CanPass(s.up, plan.up, i)
    {
      assert !Enabled(plan, s, Down(i)) && !Enabled(plan, s, Up(i));
    }
  }

  /** Nothing moves but, perhaps, the client's reading. */
  ghost predicate Quiet(plan: Plan, s: Duplex) {
    forall e :: e != Show ==> !Enabled(plan, s, e)
  }

  lemma QuietMeans(plan: Plan, s: Duplex)
    requires Within(plan, s) && Quiet(plan, s)
    ensures s.wrote < plan.says(s.got) ==> s.up == plan.up
    ensures s.wrote >= plan.says(s.got) || !plan.waits ==> s.input == 0 && s.down == Empty(plan.down)
    ensures Writing(s) || s.input > 0 ==> s.down == plan.down
  {
    NoPasses(plan, s);
    assert !Enabled(plan, s, Take) && !Enabled(plan, s, ChildRead) && !Enabled(plan, s, ChildWrite);
    if s.wrote < plan.says(s.got) {
      AllFull(s.up, plan.up);
    }
    if s.wrote >= plan.says(s.got) || !plan.waits {
      AllEmpty(s.down, plan.down);
    }
    if Writing(s) || s.input > 0 {
      AllFull(s.down, plan.down);
    }
  }

  /** Nothing can move exactly when everything arrived or everything is full. */
  lemma StuckExactly(plan: Plan, s: Duplex)
    requires Within(plan, s)
    ensures Stuck(plan, s) <==> Idle(plan, s) || Wedged(plan, s)
  {
    if Idle(plan, s) || Wedged(plan, s) {
      forall e
        ensures !Enabled(plan, s, e)
      {
      }
    }
    if Stuck(plan, s) {
      QuietMeans(plan, s);
      assert !Enabled(plan, s, Show);
      if !Writing(s) {
        NoPasses(plan, s);
        AllEmpty(s.up, plan.up);
      }
    }
  }

  // -- what is on its way -----------------------------------------------------

  function SumTo(q: seq<nat>, n: nat): nat
    requires n <= |q|
  {
    if n == 0 then 0 else SumTo(q, n - 1) + q[n - 1]
  }

  function StepsTo(q: seq<nat>, n: nat): nat
    requires n <= |q|
  {
    if n == 0 then 0 else StepsTo(q, n - 1) + SumTo(q, n)
  }

  function Sum(q: seq<nat>): nat {
    SumTo(q, |q|)
  }

  /** The steps left for everything in the lanes until it has left them. */
  function Steps(q: seq<nat>): nat {
    StepsTo(q, |q|)
  }

  /** One more in lane `i`. */
  lemma {:induction false} MoreTo(q: seq<nat>, m: seq<nat>, i: nat, n: nat)
    requires i < |q| == |m| && n <= |q| && m[i] == q[i] + 1 && forall j | 0 <= j < |q| && j != i :: m[j] == q[j]
    ensures SumTo(m, n) == SumTo(q, n) + (if i < n then 1 else 0)
    ensures StepsTo(m, n) == StepsTo(q, n) + (if i < n then n - i else 0)
  {
    if n > 0 {
      MoreTo(q, m, i, n - 1);
    }
  }

  lemma OneMore(q: seq<nat>, i: nat)
    requires i < |q|
    ensures Sum(q[i := q[i] + 1]) == Sum(q) + 1
    ensures Steps(q[i := q[i] + 1]) == Steps(q) + |q| - i
  {
    MoreTo(q, q[i := q[i] + 1], i, |q|);
  }

  lemma OneLess(q: seq<nat>, i: nat)
    requires i < |q| && q[i] > 0
    ensures Sum(q[i := q[i] - 1]) == Sum(q) - 1
    ensures Steps(q[i := q[i] - 1]) == Steps(q) - (|q| - i)
  {
    MoreTo(q[i := q[i] - 1], q, i, |q|);
  }

  lemma PassSteps(q: seq<nat>, i: nat)
    requires i + 1 < |q| && q[i] > 0
    ensures Sum(Pass(q, i)) == Sum(q) && Steps(Pass(q, i)) == Steps(q) - 1
  {
    OneLess(q, i);
    OneMore(q[i := q[i] - 1], i + 1);
  }

  lemma LeaveSteps(q: seq<nat>)
    requires CanLeave(q)
    ensures Sum(Leave(q)) == Sum(q) - 1 && Steps(Leave(q)) == Steps(q) - 1
  {
    OneLess(q, |q| - 1);
  }

  lemma {:induction false} NoneTo(q: seq<nat>, n: nat)
    requires n <= |q| && forall i | 0 <= i < |q| :: q[i] == 0
    ensures SumTo(q, n) == 0 && StepsTo(q, n) == 0
  {
    if n > 0 {
      NoneTo(q, n - 1);
    }
  }

  lemma EmptySum(lanes: seq<nat>)
    ensures Sum(Empty(lanes)) == 0
  {
    NoneTo(Empty(lanes), |lanes|);
  }

  /** No more than full, and as much only when full. */
  lemma {:induction false} FitsTo(q: seq<nat>, lanes: seq<nat>, n: nat)
    requires Fits(q, lanes) && n <= |q|
    ensures SumTo(q, n) <= SumTo(lanes, n)
    ensures SumTo(q, n) == SumTo(lanes, n) ==> forall i | 0 <= i < n :: q[i] == lanes[i]
  {
    if n > 0 {
      FitsTo(q, lanes, n - 1);
    }
  }

  lemma SumFits(q: seq<nat>, lanes: seq<nat>)
    requires Fits(q, lanes)
    ensures Sum(q) <= Sum(lanes) && (Sum(q) == Sum(lanes) ==> q == lanes)
  {
    FitsTo(q, lanes, |q|);
  }

  // -- every run --------------------------------------------------------------

  /** How many frames there are in all. */
  function Total(s: Duplex): nat {
    s.input + Sum(s.down) + s.got
  }

  /** Nothing is lost on either way; what the child reads it has waited for. */
  ghost predicate Kept(plan: Plan, input: nat, s: Duplex) {
    && Within(plan, s) && Total(s) == input && s.wrote == Sum(s.up) + s.shown && s.wrote <= plan.says(s.got)
    && (plan.waits && s.got > 0 ==> plan.says(s.got - 1) <= s.wrote)
  }

  lemma StartKept(plan: Plan, input: nat)
    requires Proper(plan)
    ensures Kept(plan, input, Start(plan, input))
  {
    EmptySum(plan.down);
    EmptySum(plan.up);
  }

  lemma StepKept(plan: Plan, input: nat, s: Duplex, e: Event)
    requires Kept(plan, input, s) && Enabled(plan, s, e)
    ensures Kept(plan, input, Next(plan, s, e))
  {
    match e {
      case Take => OneMore(s.down, 0);
      case Down(i) => PassSteps(s.down, i);
      case ChildRead => LeaveSteps(s.down);
      case ChildWrite => OneMore(s.up, 0);
      case Up(i) => PassSteps(s.up, i);
      case Show => LeaveSteps(s.up);
    }
  }

  /** The steps still to be taken by everything there is and will be. */
  function Ahead(plan: Plan, s: Duplex): nat
    requires s.wrote <= plan.says(Total(s))
  {
    Steps([s.input] + s.down) + Steps([plan.says(Total(s)) - s.wrote] + s.up)
  }

  lemma SaysLess(plan: Plan, input: nat, s: Duplex)
    requires Kept(plan, input, s)
    ensures s.wrote <= plan.says(Total(s))
  {
    assert s.got <= Total(s);
  }

  lemma EnterSteps(x: nat, q: seq<nat>)
    requires x > 0 && q != []
    ensures Steps([x - 1] + Enter(q)) == Steps([x] + q) - 1
  {
    PassSteps([x] + q, 0);
    assert Pass([x] + q, 0) == [x - 1] + Enter(q);
  }

  lemma BehindPass(x: nat, q: seq<nat>, i: nat)
    requires i + 1 < |q| && q[i] > 0
    ensures Steps([x] + Pass(q, i)) == Steps([x] + q) - 1
  {
    PassSteps([x] + q, i + 1);
    assert Pass([x] + q, i + 1) == [x] + Pass(q, i);
  }

  lemma BehindLeave(x: nat, q: seq<nat>)
    requires CanLeave(q)
    ensures Steps([x] + Leave(q)) == Steps([x] + q) - 1
  {
    LeaveSteps([x] + q);
    assert Leave([x] + q) == [x] + Leave(q);
  }

  /** Every event is one of these steps. */
  lemma StepAhead(plan: Plan, input: nat, s: Duplex, e: Event)
    requires Kept(plan, input, s) && Enabled(plan, s, e)
    ensures var n := Next(plan, s, e);
            s.wrote <= plan.says(Total(s)) && n.wrote <= plan.says(Total(n)) && Ahead(plan, n) == Ahead(plan, s) - 1
  {
    StepKept(plan, input, s, e);
    SaysLess(plan, input, s);
    SaysLess(plan, input, Next(plan, s, e));
    match e {
      case Take => EnterSteps(s.input, s.down);
      case Down(i) => BehindPass(s.input, s.down, i);
      case ChildRead => BehindLeave(s.input, s.down);
      case ChildWrite => EnterSteps(plan.says(Total(s)) - s.wrote, s.up);
      case Up(i) => BehindPass(plan.says(Total(s)) - s.wrote, s.up, i);
      case Show => BehindLeave(plan.says(Total(s)) - s.wrote, s.up);
    }
  }

  lemma {:induction false} RunKept(plan: Plan, input: nat, s: Duplex, events: seq<Event>)
    requires Kept(plan, input, s) && Run(plan, s, events).Some?
    ensures Kept(plan, input, Run(plan, s, events).value)
    decreases |events|
  {
    if events != [] {
      StepKept(plan, input, s, events[0]);
      RunKept(plan, input, Next(plan, s, events[0]), events[1..]);
    }
  }

  /** A run takes one step of those ahead with every event, so none is longer
      than they are. */
  lemma {:induction false} RunAhead(plan: Plan, input: nat, s: Duplex, events: seq<Event>)
    requires Kept(plan, input, s) && Run(plan, s, events).Some?
    ensures var t := Run(plan, s, events).value;
            s.wrote <= plan.says(Total(s)) && t.wrote <= plan.says(Total(t))
            && Ahead(plan, t) + |events| == Ahead(plan, s)
    decreases |events|
  {
    SaysLess(plan, input, s);
    if events != [] {
      StepKept(plan, input, s, events[0]);
      StepAhead(plan, input, s, events[0]);
      RunAhead(plan, input, Next(plan, s, events[0]), events[1..]);
    }
  }

  /** Some run comes to a wedge. */
  ghost predicate CanWedge(plan: Plan, input: nat) {
    exists events ::
      Run(plan, Start(plan, input), events).Some? && Wedged(plan, Run(plan, Start(plan, input), events).value)
  }

  /** The input is more than the lanes and the child take in before its output
      fills the way up. */
  ghost predicate TooMuch(plan: Plan, input: nat) {
    plan.waits && input >= Sum(plan.down) && plan.says(input - Sum(plan.down)) > Sum(plan.up)
  }

  lemma SaysMore(plan: Plan, a: nat, b: nat)
    requires Proper(plan) && a <= b
    ensures plan.says(a) <= plan.says(b)
  {
  }

  lemma WedgeIsTooMuch(plan: Plan, input: nat, s: Duplex)
    requires Kept(plan, input, s) && Wedged(plan, s)
    ensures TooMuch(plan, input)
  {
    SaysMore(plan, s.got, input - Sum(plan.down));
    SumFits(s.up, plan.up);
  }

  lemma QuietIsWedged(plan: Plan, input: nat, s: Duplex)
    requires Kept(plan, input, s) && s.shown == 0 && Quiet(plan, s) && TooMuch(plan, input)
    ensures Wedged(plan, s)
  {
    QuietMeans(plan, s);
    SumFits(s.up, plan.up);
    SumFits(s.down, plan.down);
    var g := input - Sum(plan.down);
    EmptySum(plan.down);
    SaysMore(plan, g, input);
  }

  /** A run on which the client reads nothing comes to its end. */
  lemma {:induction false} QuietRun(plan: Plan, input: nat, s: Duplex) returns (events: seq<Event>)
    requires Kept(plan, input, s) && s.shown == 0 && s.wrote <= plan.says(Total(s))
    ensures Run(plan, s, events).Some?
    ensures var t := Run(plan, s, events).value; Kept(plan, input, t) && t.shown == 0 && Quiet(plan, t)
    decreases Ahead(plan, s)
  {
    if Quiet(plan, s) {
      events := [];
    } else {
      var e :| e != Show && Enabled(plan, s, e);
      StepKept(plan, input, s, e);
      StepAhead(plan, input, s, e);
      var rest := QuietRun(plan, input, Next(plan, s, e));
      events := [e] + rest;
      assert events[1..] == rest;
    }
  }

  /** Some run wedges exactly when the child waits for its output to be taken
      and the input is too much. */
  lemma WedgesExactly(plan: Plan, input: nat)
    requires Proper(plan)
    ensures CanWedge(plan, input) <==> TooMuch(plan, input)
  {
    var s := Start(plan, input);
    StartKept(plan, input);
    if TooMuch(plan, input) {
      SaysLess(plan, input, s);
      var events := QuietRun(plan, input, s);
      QuietIsWedged(plan, input, Run(plan, s, events).value);
    } else if CanWedge(plan, input) {
      var events :| Run(plan, s, events).Some? && Wedged(plan, Run(plan, s, events).value);
      RunKept(plan, input, s, events);
      WedgeIsTooMuch(plan, input, Run(plan, s, events).value);
    }
  }

  /** Otherwise every run that can go no further has brought everything: the
      child has read all input, and the client shown all output for it. */
  lemma ElseAllArrives(plan: Plan, input: nat, events: seq<Event>)
    requires Proper(plan) && !TooMuch(plan, input)
    requires Run(plan, Start(plan, input), events).Some? && Stuck(plan, Run(plan, Start(plan, input), events).value)
    ensures var s := Run(plan, Start(plan, input), events).value; s.got == input && s.shown == plan.says(input)
  {
    StartKept(plan, input);
    RunKept(plan, input, Start(plan, input), events);
    var s := Run(plan, Start(plan, input), events).value;
    StuckExactly(plan, s);
    if Wedged(plan, s) {
      WedgeIsTooMuch(plan, input, s);
    }
    EmptySum(plan.down);
    EmptySum(plan.up);
  }

  // -- the program's lanes ----------------------------------------------------

  const CHUNKS: nat := 256          // event lanes of serve and of the daemon
  const CHANNEL: nat := 64          // decoded SSH channel messages

  /** What the operating system's pipes and the SSH windows hold, in frames. */
  datatype Room = Room(ipc: nat, ssh: nat, pipe: nat)

  /** The client's hand, its connection, the frame reader's hand, the stdin
      lane, the forwarder's hand, the SSH window, the router's hand, serve's
      lane, the pump's hand, and the child's input. */
  function DownLanes(room: Room): seq<nat> {
    [1, room.ipc, 1, P.LANE, 1, room.ssh, 1, P.SERVE_LANE, 1, room.pipe]
  }

  /** The child's output, its pump's hand, serve's event lane and writer, the
      SSH window, the channel reader's hand and lane, the engine's hand, its
      output lane, the bridge's hand, the connection's event lane and writer,
      and the connection. */
  function UpLanes(room: Room): seq<nat> {
    [room.pipe, 1, CHUNKS, 1, room.ssh, 1, CHANNEL, 1, CHUNKS, 1, CHUNKS, 1, room.ipc]
  }

  lemma SumOfFour(q: seq<nat>, n: nat)
    requires n + 4 <= |q|
    ensures SumTo(q, n + 4) == SumTo(q, n) + q[n] + q[n + 1] + q[n + 2] + q[n + 3]
  {
    assert SumTo(q, n + 2) == SumTo(q, n + 1) + q[n + 1];
    assert SumTo(q, n + 3) == SumTo(q, n + 2) + q[n + 2];
  }

  lemma Places(room: Room)
    ensures Sum(DownLanes(room)) == 325 + room.ipc + room.ssh + room.pipe
    ensures Sum(UpLanes(room)) == 838 + room.ipc + room.ssh + room.pipe
  {
    var down, up := DownLanes(room), UpLanes(room);
    SumOfFour(down, 0);
    SumOfFour(down, 4);
    assert SumTo(down, 9) == SumTo(down, 8) + 1;
    SumOfFour(up, 0);
    SumOfFour(up, 4);
    SumOfFour(up, 8);
  }

  /** A filter that writes a piece for every frame it reads and waits for it to
      be taken. */
  function Filter(room: Room): Plan {
    Plan(DownLanes(room), UpLanes(room), k => k, true)
  }

  /** The program can wedge on such a filter exactly when the input has more
      frames than the places of both ways together. */
  lemma FilterWedges(room: Room, input: nat)
    requires room.ipc > 0 && room.ssh > 0 && room.pipe > 0
    ensures CanWedge(Filter(room), input) <==> input > 1163 + 2 * (room.ipc + room.ssh + room.pipe)
  {
    Places(room);
    WedgesExactly(Filter(room), input);
  }
}
