/** Whole runs of any number of channel ends, each output side and each input side used by one thread. */
module ChannelRuns {
  import opened Sequences
  import opened Options
  import opened ChannelState
  import opened ChannelSafety
  import opened ChannelHistory

  datatype Step =
    | Sends(who: nat, out: Out)
    | Receives(who: nat, in_: In)
    | SetsDest(who: nat, target: Option<nat>)
    | Allocates(who: nat)
    | Frees(who: nat)

  function Init(n: nat, capacity: nat): Net {
    Net(capacity, seq(n, _ => Fresh()), seq(n, _ => Rx(false, None, [], [], None)),
      seq(n, _ => Past([], [], [], [], [])))
  }

  /** What a program may do next: a paused thread does nothing, and a woken one repeats its instruction. */
  predicate Legal(s: Net, step: Step)
    requires Shape(s)
  {
    step.who < |s.tx| &&
    match step
    case Sends(i, op) => Idle(s, i, op)
    case Receives(i, _) => s.rx[i].inUse && s.rx[i].pausedIn.None?
    case SetsDest(i, target) => s.rx[i].inUse && s.tx[i].retry.None? && (target.Some? ==> target.value < |s.tx|)
    case Allocates(i) => !s.rx[i].inUse
    case Frees(i) => s.rx[i].inUse && s.tx[i].retry.None? && s.rx[i].pausedIn.None?
  }

  function Apply(s: Net, step: Step): Net
    requires Shape(s) && Legal(s, step) && Bound(s, step.who)
  {
    match step
    case Sends(i, op) => Output(s, i, op)
    case Receives(i, op) => Input(s, i, op)
    case SetsDest(i, target) => SetDest(s, i, target)
    case Allocates(i) => Alloc(s, i)
    case Frees(i) => Free(s, i)
  }

  ghost predicate Safe(s: Net) { Inv(s) && History(s) }

  lemma StepIsSafe(s: Net, step: Step)
    requires Safe(s) && Legal(s, step)
    ensures Bound(s, step.who) && Safe(Apply(s, step))
  {
    assert TxOk(s.tx[step.who]);
    match step
    case Sends(i, op) => OutputRecords(s, i, op);
    case Receives(i, op) => InputRecords(s, i, op);
    case SetsDest(i, target) => SetDestKeeps(s, i, target); QuietKeeps(s, SetDest(s, i, target));
    case Allocates(i) => AllocKeeps(s, i); QuietKeeps(s, Alloc(s, i));
    case Frees(i) => FreeKeeps(s, i); QuietKeeps(s, Free(s, i));
  }

  /** How many channel ends there are, and the size of their buffers (CHANEND_BUFFER_SIZE). */
  datatype System = System(ends: nat, capacity: nat)

  /** The state after a run, if every step was one a program may make. */
  function Run(y: System, steps: seq<Step>): Option<Net> {
    if steps == [] then Some(Init(y.ends, y.capacity))
    else
      var last := steps[|steps| - 1];
      match Run(y, steps[..|steps| - 1])
      case None => None
      case Some(s) => if Shape(s) && Legal(s, last) && Bound(s, last.who) then Some(Apply(s, last)) else None
  }

  lemma InitRoutes(n: nat, capacity: nat, d: nat, j: nat)
    requires d < n && j < n
    ensures var s := Init(n, capacity); SourceOk(s, d, j) && QueueOk(s, d, j) && Ordered(s, d, j)
  {
  }

  lemma InitLocal(n: nat, capacity: nat, j: nat)
    requires j < n
    ensures var s := Init(n, capacity);
      TxOk(s.tx[j]) && RoomOk(s, j) && UnusedOk(s, j) && RxOk(s.rx[j], s.capacity) && Recorded(s, j)
  {
  }

  lemma InitIsSafe(n: nat, capacity: nat)
    ensures Safe(Init(n, capacity))
  {
    var s := Init(n, capacity);
    forall d, j: nat | 0 <= d < n && j < n ensures SourceOk(s, d, j) && QueueOk(s, d, j) && Ordered(s, d, j) {
      InitRoutes(n, capacity, d, j);
    }
    forall j: nat | j < n
      ensures TxOk(s.tx[j]) && RoomOk(s, j) && UnusedOk(s, j) && RxOk(s.rx[j], s.capacity) && Recorded(s, j)
    {
      InitLocal(n, capacity, j);
    }
  }

  lemma {:induction false} RunIsSafe(y: System, steps: seq<Step>, s: Net)
    requires Run(y, steps) == Some(s)
    ensures Safe(s)
    decreases |steps|
  {
    if steps == [] {
      InitIsSafe(y.ends, y.capacity);
    } else {
      var r := Run(y, steps[..|steps| - 1]).value;
      RunIsSafe(y, steps[..|steps| - 1], r);
      StepIsSafe(r, steps[|steps| - 1]);
    }
  }
}
