/**
 Any number of goroutines passing the gate at once. Sending on and receiving from the channel, each atomic
 add, load and compare-and-swap is one step, and the steps of different goroutines come in any order.
 */
module HashGateRuns {
  import opened Sets

  type Id = nat

  /** Where a goroutine stands. One that is lifting the mark carries the count its add returned, the mark
      when it added, and how many of its compare-and-swaps have failed. */
  datatype Goroutine =
    | Waiting
    | Admitted
    | Lifting(n: int, since: int, failed: nat)
    | Loaded(n: int, since: int, failed: nat, mark: int)
    | Deriving
    | Leaving
    | Gone

  /** `top` is history: the largest count an add ever returned. */
  datatype Gate = Gate(capacity: int, held: int, inFlight: int, peak: int, top: int, all: map<Id, Goroutine>)

  datatype Op =
    | Arrive(g: Id)
    | Admit(g: Id)
    | GiveUp(g: Id)
    | Add(g: Id)
    | Load(g: Id)
    | CompareAndSwap(g: Id)
    | Exit(g: Id)
    | Release(g: Id)

  function Fresh(capacity: int): Gate {
    Gate(capacity, 0, 0, 0, 0, map[])
  }

  function At(s: Gate, g: Id): Goroutine {
    if g in s.all then s.all[g] else Gone
  }

  /** One step; an operation that does not fit the goroutine's state changes nothing. */
  function Step(s: Gate, op: Op): Gate {
    match op
    case Arrive(g) =>
      if g in s.all then s else s.(all := s.all[g := if s.capacity <= 0 then Admitted else Waiting])
    case Admit(g) =>
      if At(s, g).Waiting? && s.held < s.capacity then s.(held := s.held + 1, all := s.all[g := Admitted]) else s
    case GiveUp(g) =>
      if At(s, g).Waiting? then s.(all := s.all[g := Gone]) else s
    case Add(g) =>
      if At(s, g).Admitted? then
        var n := s.inFlight + 1;
        s.(inFlight := n, top := if s.top < n then n else s.top, all := s.all[g := Lifting(n, s.peak, 0)])
      else s
    case Load(g) =>
      (match At(s, g)
       case Lifting(n, since, failed) =>
         s.(all := s.all[g := if n <= s.peak then Deriving else Loaded(n, since, failed, s.peak)])
       case _ => s)
    case CompareAndSwap(g) =>
      (match At(s, g)
       case Loaded(n, since, failed, mark) =>
         if s.peak == mark then s.(peak := n, all := s.all[g := Deriving])
         else s.(all := s.all[g := Lifting(n, since, failed + 1)])
       case _ => s)
    case Exit(g) =>
      if At(s, g).Deriving? then s.(inFlight := s.inFlight - 1, all := s.all[g := Leaving]) else s
    case Release(g) =>
      if At(s, g).Leaving? then s.(held := if s.capacity <= 0 then s.held else s.held - 1, all := s.all[g := Gone])
        else s
  }

  function Run(s: Gate, ops: seq<Op>): Gate {
    if ops == [] then s else Step(Run(s, ops[..|ops| - 1]), ops[|ops| - 1])
  }

  predicate InFlight(p: Goroutine) {
    p.Lifting? || p.Loaded? || p.Deriving?
  }

  predicate Holds(p: Goroutine) {
    InFlight(p) || p.Admitted? || p.Leaving?
  }

  predicate Carries(p: Goroutine, n: int) {
    (p.Lifting? || p.Loaded?) && p.n == n
  }

  function Flying(all: map<Id, Goroutine>): set<Id> {
    set g <- all | InFlight(all[g])
  }

  function Holding(all: map<Id, Goroutine>): set<Id> {
    set g <- all | Holds(all[g])
  }

  predicate GoroutineOk(s: Gate, p: Goroutine) {
    match p
    case Waiting => 0 < s.capacity
    case Lifting(n, since, failed) => n <= s.top && since + failed <= s.peak && failed <= Room(n, since)
    case Loaded(n, since, failed, mark) => n <= s.top && since + failed <= mark <= s.peak && mark < n
    case _ => true
  }

  /** How far a goroutine that was counted as the n-th has to lift the mark. */
  function Room(n: int, since: int): nat {
    if since < n then n - since else 0
  }

  predicate TopOk(s: Gate) {
    s.peak == s.top || exists g <- s.all :: Carries(s.all[g], s.top)
  }

  /** The counters count the goroutines: as many in flight as are past their add, and as many slots taken as
      goroutines hold one. */
  predicate CountsOk(s: Gate) {
    && s.inFlight == |Flying(s.all)|
    && (if s.capacity <= 0 then s.held == 0 else s.held == |Holding(s.all)| <= s.capacity && s.top <= s.capacity)
  }

  predicate Inv(s: Gate) {
    && CountsOk(s)
    && s.peak <= s.top
    && TopOk(s)
    && forall g <- s.all :: GoroutineOk(s, s.all[g])
  }

  function One(b: bool): nat {
    if b then 1 else 0
  }

  /** How a count moves when one goroutine changes its state. */
  lemma FlyingRecounted(all: map<Id, Goroutine>, g: Id, p: Goroutine)
    ensures |Flying(all[g := p])| == |Flying(all)| + One(InFlight(p)) - One(g in all && InFlight(all[g]))
  {
    hide InFlight;
    assert Flying(all[g := p]) == if InFlight(p) then Flying(all) + {g} else Flying(all) - {g};
    SizeWithOne(Flying(all), g);
  }

  lemma HoldingRecounted(all: map<Id, Goroutine>, g: Id, p: Goroutine)
    ensures |Holding(all[g := p])| == |Holding(all)| + One(Holds(p)) - One(g in all && Holds(all[g]))
  {
    hide Holds;
    assert Holding(all[g := p]) == if Holds(p) then Holding(all) + {g} else Holding(all) - {g};
    SizeWithOne(Holding(all), g);
  }

  lemma FlyingHold(all: map<Id, Goroutine>)
    ensures |Flying(all)| <= |Holding(all)|
  {
    SubsetSize(Flying(all), Holding(all));
  }

  lemma CountsStayOk(s: Gate, op: Op)
    requires CountsOk(s)
    ensures CountsOk(Step(s, op))
  {
    hide Flying, Holding;
    var s' := Step(s, op);
    if s' != s {
      var p := s'.all[op.g];
      assert s'.all == s.all[op.g := p];
      FlyingRecounted(s.all, op.g, p);
      HoldingRecounted(s.all, op.g, p);
      FlyingHold(s'.all);
    }
  }

  lemma TopStaysOk(s: Gate, op: Op)
    requires TopOk(s) && s.peak <= s.top
    requires forall g <- s.all :: GoroutineOk(s, s.all[g])
    ensures TopOk(Step(s, op)) && Step(s, op).peak <= Step(s, op).top
  {
    var s' := Step(s, op);
    if op.g in s.all {
      assert GoroutineOk(s, s.all[op.g]);
    }
    if s'.top != s.top {
      assert Carries(s'.all[op.g], s'.top);
    } else if s.peak != s.top {
      var w :| w in s.all && Carries(s.all[w], s.top);
      if w != op.g {
        assert s'.all[w] == s.all[w];
      } else if s'.peak != s'.top {
        assert Carries(s'.all[w], s'.top);
      }
    }
  }

  lemma PeakNeverFalls(s: Gate, op: Op)
    requires op.g in s.all ==> GoroutineOk(s, s.all[op.g])
    ensures s.peak <= Step(s, op).peak
  {
  }

  lemma GoroutinesStayOk(s: Gate, op: Op, g: Id)
    requires s.peak <= s.top && g in Step(s, op).all && s.peak <= Step(s, op).peak
    requires g in s.all ==> GoroutineOk(s, s.all[g])
    ensures GoroutineOk(Step(s, op), Step(s, op).all[g])
  {
  }

  lemma StepKeepsInv(s: Gate, op: Op)
    requires Inv(s)
    ensures Inv(Step(s, op)) && Step(s, op).capacity == s.capacity && s.peak <= Step(s, op).peak
  {
    hide CountsOk, TopOk, GoroutineOk;
    CountsStayOk(s, op);
    TopStaysOk(s, op);
    PeakNeverFalls(s, op);
    forall g <- Step(s, op).all
      ensures GoroutineOk(Step(s, op), Step(s, op).all[g])
    {
      GoroutinesStayOk(s, op, g);
    }
  }

  // ---- the theorems ------------------------------------------------------------------------

  lemma {:induction false} EveryRunIsOk(capacity: int, ops: seq<Op>)
    ensures Inv(Run(Fresh(capacity), ops)) && Run(Fresh(capacity), ops).capacity == capacity
  {
    if ops == [] {
      var s := Fresh(capacity);
      assert Flying(s.all) == {} && Holding(s.all) == {};
    } else {
      EveryRunIsOk(capacity, ops[..|ops| - 1]);
      StepKeepsInv(Run(Fresh(capacity), ops[..|ops| - 1]), ops[|ops| - 1]);
    }
  }

  /** A gate of size n never lets more than n derivations run at once, and its mark never claims more. */
  lemma GateBoundsDerivations(capacity: int, ops: seq<Op>)
    requires 0 < capacity
    ensures var s := Run(Fresh(capacity), ops);
            && s.inFlight == |Flying(s.all)| <= s.held == |Holding(s.all)| <= capacity
            && s.peak <= s.top <= capacity
  {
    EveryRunIsOk(capacity, ops);
    FlyingHold(Run(Fresh(capacity), ops).all);
  }

  /** When every call has returned, whether it derived a key, timed out or was cancelled, no slot is taken
      and nothing is in flight. */
  lemma QuietGateIsEmpty(capacity: int, ops: seq<Op>)
    requires forall g <- Run(Fresh(capacity), ops).all :: Run(Fresh(capacity), ops).all[g] == Gone
    ensures Run(Fresh(capacity), ops).held == 0 && Run(Fresh(capacity), ops).inFlight == 0
  {
    EveryRunIsOk(capacity, ops);
    assert Flying(Run(Fresh(capacity), ops).all) == {} && Holding(Run(Fresh(capacity), ops).all) == {};
  }

  /** The mark is a correct maximum: it never claims more than the largest count an add returned, and it is
      that count whenever no goroutine is lifting it. */
  lemma MarkIsTheMaximum(capacity: int, ops: seq<Op>)
    ensures var s := Run(Fresh(capacity), ops);
            && s.peak <= s.top
            && ((forall g <- s.all :: !s.all[g].Lifting? && !s.all[g].Loaded?) ==> s.peak == s.top)
  {
    EveryRunIsOk(capacity, ops);
  }

  /** The mark never falls, over any run. */
  lemma {:induction false} MarkNeverFalls(capacity: int, ops: seq<Op>, k: nat)
    requires k <= |ops|
    ensures Run(Fresh(capacity), ops[..k]).peak <= Run(Fresh(capacity), ops).peak
  {
    if k == |ops| {
      assert ops[..k] == ops;
    } else {
      var init := ops[..|ops| - 1];
      assert init[..k] == ops[..k];
      MarkNeverFalls(capacity, init, k);
      EveryRunIsOk(capacity, init);
      StepKeepsInv(Run(Fresh(capacity), init), ops[|ops| - 1]);
    }
  }

  /** The loop that lifts the mark ends: a failed compare-and-swap means the mark is higher than the value
      loaded, so a goroutine counted as the n-th fails at most as often as the mark was short of n. */
  lemma LiftingEnds(capacity: int, ops: seq<Op>, g: Id)
    requires At(Run(Fresh(capacity), ops), g).Loaded?
    ensures var s := Run(Fresh(capacity), ops);
            var Loaded(n, since, failed, mark) := At(s, g);
            && since + failed < n
            && (At(Step(s, CompareAndSwap(g)), g) != Deriving ==> mark < s.peak && n - s.peak < n - mark)
  {
    EveryRunIsOk(capacity, ops);
    assert GoroutineOk(Run(Fresh(capacity), ops), Run(Fresh(capacity), ops).all[g]);
  }
}
