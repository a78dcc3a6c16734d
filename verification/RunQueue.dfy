/** The kernel's run queues. The method queues and the thread queues are two copies of one
    structure; `RunQueue` models either. */
module RunQueues {
  import opened Lists

  // ---------------------------------------------------------------------------
  // What the two lists stand for
  // ---------------------------------------------------------------------------

  /** `pop` is what the current evaluation phase still has to run, `push` what the next one
      will. */
  datatype Queues<P> = Queues(push: seq<P>, pop: seq<P>)

  /** The order in which the queued processes will run. */
  function Order<P>(q: Queues<P>): seq<P> { q.pop + q.push }

  ghost predicate Sound<P>(q: Queues<P>) { Distinct(Order(q)) }

  datatype Op<P> = PushBack(p: P) | PushFront(p: P) | ExecuteNext(p: P) | Remove(p: P) | Pop | Toggle

  /** The calls the kernel makes: a process is queued only when it is not queued already. */
  ghost predicate Allowed<P>(q: Queues<P>, op: Op<P>) {
    op.PushBack? || op.PushFront? || op.ExecuteNext? ==> op.p !in Order(q)
  }

  function Apply<P(==)>(q: Queues<P>, op: Op<P>): Queues<P> {
    match op
    case PushBack(p) => q.(push := q.push + [p])
    case PushFront(p) => q.(push := [p] + q.push)
    case ExecuteNext(p) => q.(pop := [p] + q.pop)
    case Remove(p) => Queues(Without(q.push, p), Without(q.pop, p))
    case Pop => if q.pop == [] then q else q.(pop := q.pop[1..])
    case Toggle => if q.pop == [] then Queues([], q.push) else q
  }

  /** The two lists behave as one queue: popping takes its head, if the current phase has one;
      toggling leaves it alone; and removal takes out its argument and nothing else. */
  lemma OneOrder<P>(q: Queues<P>, op: Op<P>)
    ensures
      var r := Order(Apply(q, op));
      match op
      case PushBack(p) => r == Order(q) + [p]
      case PushFront(p) => r == q.pop + [p] + q.push
      case ExecuteNext(p) => r == [p] + Order(q)
      case Remove(p) => r == Without(Order(q), p)
      case Pop => r == if q.pop != [] then Order(q)[1..] else Order(q)
      case Toggle => r == Order(q)
  {
    if op.Remove? {
      WithoutJoin(q.pop, q.push, op.p);
    }
  }

  /** Over any sequence of allowed calls, each process is queued at most once. */
  ghost predicate AllAllowed<P>(q: Queues<P>, ops: seq<Op<P>>)
    decreases |ops|
  {
    ops == [] || (Allowed(q, ops[0]) && AllAllowed(Apply(q, ops[0]), ops[1..]))
  }

  function ApplyAll<P(==)>(q: Queues<P>, ops: seq<Op<P>>): Queues<P>
    decreases |ops|
  {
    if ops == [] then q else ApplyAll(Apply(q, ops[0]), ops[1..])
  }

  lemma ApplyKeepsSound<P>(q: Queues<P>, op: Op<P>)
    requires Sound(q) && Allowed(q, op)
    ensures Sound(Apply(q, op))
  {
    OneOrder(q, op);
    match op
    case Remove(p) => WithoutDistinct(Order(q), p);
    case PushBack(p) =>
      assert Order(q) + [] == Order(q);
      DistinctInsert(Order(q), p, []);
      assert Order(q) + [p] + [] == Order(q) + [p];
    case PushFront(p) => DistinctInsert(q.pop, p, q.push);
    case ExecuteNext(p) => DistinctCons(p, Order(q));
    case _ =>
  }

  lemma {:induction false} QueuedAtMostOnce<P>(q: Queues<P>, ops: seq<Op<P>>)
    requires Sound(q) && AllAllowed(q, ops)
    ensures Sound(ApplyAll(q, ops))
    decreases |ops|
  {
    if ops != [] {
      ApplyKeepsSound(q, ops[0]);
      QueuedAtMostOnce(Apply(q, ops[0]), ops[1..]);
    }
  }

  /** What a sequence of calls pops, and what it pushes at the back. */
  function Popped<P(==)>(q: Queues<P>, ops: seq<Op<P>>): seq<P>
    decreases |ops|
  {
    if ops == [] then []
    else (if ops[0].Pop? && q.pop != [] then [q.pop[0]] else []) + Popped(Apply(q, ops[0]), ops[1..])
  }

  function Pushed<P>(ops: seq<Op<P>>): seq<P> {
    if ops == [] then [] else (if ops[0].PushBack? then [ops[0].p] else []) + Pushed(ops[1..])
  }

  /** With calls of push_back, pop and toggle only, processes run in the order they became
      runnable, across any number of evaluation phases. */
  lemma {:induction false} RunsInPushOrder<P>(q: Queues<P>, ops: seq<Op<P>>)
    requires forall i :: 0 <= i < |ops| ==> ops[i].PushBack? || ops[i].Pop? || ops[i].Toggle?
    ensures Popped(q, ops) + Order(ApplyAll(q, ops)) == Order(q) + Pushed(ops)
    decreases |ops|
  {
    if ops == [] {
      assert [] + Order(q) == Order(q) + [];
    } else {
      var q', rest := Apply(q, ops[0]), ops[1..];
      RunsInPushOrder(q', rest);
      var x := if ops[0].Pop? && q.pop != [] then [q.pop[0]] else [];
      var y := if ops[0].PushBack? then [ops[0].p] else [];
      assert Order(q) + y == x + Order(q');
      Splice(x, Popped(q', rest), Order(ApplyAll(q', rest)), Order(q'), Pushed(rest), Order(q), y);
    }
  }

  /** A process made runnable runs in the next phase, not in the current one: until the next
      toggle, what is popped is what the current phase had, whatever is pushed meanwhile. */
  lemma {:induction false} PhaseIsClosed<P>(q: Queues<P>, ops: seq<Op<P>>)
    requires forall i :: 0 <= i < |ops| ==> ops[i].PushBack? || ops[i].PushFront? || ops[i].Pop?
    ensures Popped(q, ops) + ApplyAll(q, ops).pop == q.pop
    decreases |ops|
  {
    if ops == [] {
      assert [] + q.pop == q.pop;
    } else {
      var q', rest := Apply(q, ops[0]), ops[1..];
      PhaseIsClosed(q', rest);
      var x := if ops[0].Pop? && q.pop != [] then [q.pop[0]] else [];
      assert x + q'.pop == q.pop;
      assert (x + Popped(q', rest)) + ApplyAll(q', rest).pop == x + (Popped(q', rest) + ApplyAll(q', rest).pop);
    }
  }

  /** One pass of the scheduler: toggle, then pop. */
  function Passes<P>(k: nat): seq<Op<P>> {
    if k == 0 then [] else [Toggle, Pop] + Passes(k - 1)
  }

  lemma OnePass<P>(q: Queues<P>)
    requires Order(q) != []
    ensures Popped(q, [Toggle, Pop]) == [Order(q)[0]]
    ensures Order(ApplyAll(q, [Toggle, Pop])) == Order(q)[1..]
  {
    var q' := Apply(q, Toggle);
    assert Order(q') == Order(q) && q'.pop != [];
    assert [Toggle, Pop][1..] == [Op<P>.Pop] && [Op<P>.Pop][1..] == [];
    assert Popped(q, [Toggle, Pop]) == [] + ([q'.pop[0]] + []);
  }

  lemma {:induction false} PopsInTurn<P>(q: Queues<P>, ops: seq<Op<P>>, more: seq<Op<P>>)
    ensures Popped(q, ops + more) == Popped(q, ops) + Popped(ApplyAll(q, ops), more)
    ensures ApplyAll(q, ops + more) == ApplyAll(ApplyAll(q, ops), more)
    decreases |ops|
  {
    if ops == [] {
      assert ops + more == more;
      assert [] + Popped(q, more) == Popped(q, more);
    } else {
      assert (ops + more)[1..] == ops[1..] + more;
      PopsInTurn(Apply(q, ops[0]), ops[1..], more);
      var x := if ops[0].Pop? && q.pop != [] then [q.pop[0]] else [];
      Regroup(x, Popped(Apply(q, ops[0]), ops[1..]), Popped(ApplyAll(q, ops), more));
    }
  }

  /** Whatever is queued runs: as many passes as there are queued processes run exactly those, in
      order, and leave nothing queued. */
  lemma {:induction false} EverythingRuns<P>(q: Queues<P>)
    ensures Popped(q, Passes(|Order(q)|)) == Order(q)
    ensures Order(ApplyAll(q, Passes(|Order(q)|))) == []
    decreases |Order(q)|
  {
    if Order(q) != [] {
      var k, next := |Order(q)| - 1, ApplyAll(q, [Toggle, Pop]);
      OnePass(q);
      EverythingRuns(next);
      PopsInTurn(q, [Toggle, Pop], Passes(k));
    }
  }

  /** A thread queued to execute next is the next one to run, and the preempted phase goes on
      behind it. */
  lemma ExecutesNext<P>(q: Queues<P>, p: P)
    ensures Popped(q, [ExecuteNext(p), Pop]) == [p] && ApplyAll(q, [ExecuteNext(p), Pop]) == q
  {
    assert [ExecuteNext(p), Pop][1..] == [Op<P>.Pop] && [Op<P>.Pop][1..] == [];
    assert ([p] + q.pop)[1..] == q.pop;
    assert Popped(q, [ExecuteNext(p), Pop]) == [] + ([p] + []);
  }

  lemma Splice<P>(x: seq<P>, out: seq<P>, end: seq<P>, mid: seq<P>, ins: seq<P>, start: seq<P>, y: seq<P>)
    requires out + end == mid + ins && start + y == x + mid
    ensures (x + out) + end == start + (y + ins)
  {
    calc {
      (x + out) + end;
      x + (out + end);
      x + (mid + ins);
      (x + mid) + ins;
      (start + y) + ins;
      start + (y + ins);
    }
  }

  /** x is queued, and y somewhere behind it. */
  predicate Before<P(==)>(s: seq<P>, x: P, y: P)
    ensures Before(s, x, y) ==> s != [] && x in s && y in s[1..]
  {
    s != [] && if s[0] == x then y in s[1..] else Before(s[1..], x, y)
  }

  lemma {:induction false} BeforeInsert<P>(s: seq<P>, p: P, t: seq<P>, x: P, y: P)
    requires Before(s + t, x, y) && p != x
    ensures Before(s + [p] + t, x, y)
  {
    if s == [] {
      assert s + t == t && (s + [p] + t)[1..] == t;
    } else {
      assert (s + t)[1..] == s[1..] + t && (s + [p] + t)[1..] == s[1..] + [p] + t;
      if s[0] != x {
        BeforeInsert(s[1..], p, t, x, y);
      }
    }
  }

  lemma {:induction false} BeforeWithout<P>(s: seq<P>, p: P, x: P, y: P)
    requires Before(s, x, y) && p != x && p != y
    ensures Before(Without(s, p), x, y)
  {
    var rest := Without(s[1..], p);
    assert Without(s, p) == if s[0] == p then rest else [s[0]] + rest;
    assert s[0] != p ==> Without(s, p)[1..] == rest;
    if s[0] == x {
      WithoutMembers(s[1..], p, y);
    } else {
      BeforeWithout(s[1..], p, x, y);
    }
  }

  lemma PopKeepsBefore<P>(q: Queues<P>, x: P, y: P)
    requires Sound(q) && Before(Order(q), x, y) && q.pop != [] && q.pop[0] != x
    ensures Before(Order(q)[1..], x, y) && q.pop[0] != y
  {
    assert Order(q)[0] == q.pop[0];
  }

  lemma PushKeepsBefore<P>(q: Queues<P>, op: Op<P>, x: P, y: P)
    requires Before(Order(q), x, y) && Allowed(q, op) && (op.PushBack? || op.PushFront? || op.ExecuteNext?)
    ensures Before(Order(Apply(q, op)), x, y)
  {
    match op
    case PushBack(p) =>
      NoneBehind(Order(q));
      NoneBehind(Order(q) + [p]);
      BeforeInsert(Order(q), p, [], x, y);
      Regroup(q.pop, q.push, [p]);
    case PushFront(p) =>
      BeforeInsert(q.pop, p, q.push, x, y);
      Regroup(q.pop, [p], q.push);
    case ExecuteNext(p) => Regroup([p], q.pop, q.push);
    case _ =>
  }

  lemma NoneBehind<P>(s: seq<P>)
    ensures s + [] == s
  {
  }

  lemma Regroup<P>(a: seq<P>, b: seq<P>, c: seq<P>)
    ensures (a + b) + c == a + (b + c)
  {
  }

  /** One call leaves y behind x, unless it pops x or removes one of them. */
  lemma CallKeepsBefore<P>(q: Queues<P>, op: Op<P>, x: P, y: P)
    requires Sound(q) && Allowed(q, op) && Before(Order(q), x, y) && op != Remove(x) && op != Remove(y)
    requires op.Pop? && q.pop != [] ==> q.pop[0] != x
    ensures Before(Order(Apply(q, op)), x, y)
    ensures op.Pop? && q.pop != [] ==> q.pop[0] != y
  {
    OneOrder(q, op);
    if op.Remove? {
      BeforeWithout(Order(q), op.p, x, y);
    } else if op.Pop? && q.pop != [] {
      PopKeepsBefore(q, x, y);
    } else if op.PushBack? || op.PushFront? || op.ExecuteNext? {
      PushKeepsBefore(q, op, x, y);
    }
  }

  /** Nobody is overtaken: whatever calls are made, of two queued processes the one behind is
      not run before the other one has been run or removed, or it has been removed itself. */
  lemma {:induction false} NoOvertaking<P>(q: Queues<P>, ops: seq<Op<P>>, x: P, y: P)
    requires Sound(q) && AllAllowed(q, ops) && Before(Order(q), x, y)
    requires Remove(x) !in ops && Remove(y) !in ops && x !in Popped(q, ops)
    ensures y !in Popped(q, ops) && Before(Order(ApplyAll(q, ops)), x, y)
    decreases |ops|
  {
    if ops != [] {
      assert ops[0] in ops;
      var out := if ops[0].Pop? && q.pop != [] then [q.pop[0]] else [];
      var rest := Popped(Apply(q, ops[0]), ops[1..]);
      assert forall z :: z in out + rest <==> z in out || z in rest;
      CallKeepsBefore(q, ops[0], x, y);
      ApplyKeepsSound(q, ops[0]);
      NoOvertaking(Apply(q, ops[0]), ops[1..], x, y);
    }
  }

  /** Who calls preempt_with: a method, or a thread. */
  datatype Caller<+P> = MethodCaller | ThreadCaller(p: P)

  /** preempt_with: the target leaves the queues if it is there. A method then runs it directly;
      a thread goes to the front with the target before it. */
  function Preempt<P(==)>(q: Queues<P>, caller: Caller<P>, target: P): Queues<P> {
    var cleared := Apply(q, Remove(target));
    match caller
    case MethodCaller => cleared
    case ThreadCaller(p) =>
      if p == target then Apply(cleared, ExecuteNext(target))
      else Apply(Apply(cleared, ExecuteNext(p)), ExecuteNext(target))
  }

  /** After a preemption the target runs first, at once if the caller is a method; a calling
      thread (if another) runs second, then everyone else in the order they had; and nobody is
      queued twice. */
  lemma PreemptionOrder<P>(q: Queues<P>, caller: Caller<P>, target: P)
    requires Sound(q) && (caller.ThreadCaller? ==> caller.p !in Order(q))
    ensures
      var r := Preempt(q, caller, target);
      && Sound(r)
      && Order(r) ==
         match caller
         case MethodCaller => Without(Order(q), target)
         case ThreadCaller(p) => [target] + (if p == target then [] else [p]) + Without(Order(q), target)
    ensures
      var n := match caller case MethodCaller => 0 case ThreadCaller(p) => if p == target then 1 else 2;
      |Preempt(q, caller, target).pop| == n + |Without(q.pop, target)|
  {
    OneOrder(q, Remove(target));
    WithoutMembers(Order(q), target, target);
    ApplyKeepsSound(q, Remove(target));
    if caller.ThreadCaller? {
      WithoutMembers(Order(q), target, caller.p);
      ThreadPreempts(Apply(q, Remove(target)), caller.p, target);
    }
  }

  lemma ThreadPreempts<P>(cleared: Queues<P>, caller: P, target: P)
    requires Sound(cleared) && caller !in Order(cleared) && target !in Order(cleared)
    ensures
      var r := if caller == target then Apply(cleared, ExecuteNext(target))
               else Apply(Apply(cleared, ExecuteNext(caller)), ExecuteNext(target));
      Sound(r) && Order(r) == [target] + (if caller == target then [] else [caller]) + Order(cleared)
  {
    if caller == target {
      OneOrder(cleared, ExecuteNext(target));
      ApplyKeepsSound(cleared, ExecuteNext(target));
    } else {
      OneOrder(cleared, ExecuteNext(caller));
      ApplyKeepsSound(cleared, ExecuteNext(caller));
      OneOrder(Apply(cleared, ExecuteNext(caller)), ExecuteNext(target));
      ApplyKeepsSound(Apply(cleared, ExecuteNext(caller)), ExecuteNext(target));
    }
  }

  // ---------------------------------------------------------------------------
  // The intrusive lists
  // ---------------------------------------------------------------------------

  class Process {
    var next: Process?       // m_runnable_p: null exactly when not queued
    var disabled: bool
    var suspended: bool
    var readyToRun: bool
    var waitsStatic: bool    // m_trigger_type == STATIC
    var waitCycles: nat      // m_wait_cycle_n

    constructor ()
      ensures next == null
    {
      next := null;
      waitsStatic := true;
    }
  }

  class RunQueue {
    const marker: Process  // the non-null end marker
    const pushHead: Process
    var pushTail: Process
    var popHead: Process
    ghost const processes: set<Process>
    ghost var push: seq<Process>
    ghost var pop: seq<Process>

    ghost predicate Queued(p: Process)
      reads this
    {
      p in push || p in pop
    }

    ghost predicate Valid()
      reads this, processes, pushHead
    {
      && marker !in processes && pushHead !in processes && pushHead != marker
      && pushHead.next == First(push)
      && pushTail == (if push == [] then pushHead else push[|push| - 1])
      && popHead == First(pop)
      && Apart(push, pop)
      && Linked(push) && Linked(pop)
      && (forall p {:trigger p.next} :: p in processes ==> (p.next != null <==> Queued(p)))
    }

    /** Two lists of processes with no process twice. */
    ghost predicate Apart(s: seq<Process>, t: seq<Process>) {
      && (forall i :: 0 <= i < |s| ==> s[i] in processes)
      && (forall i :: 0 <= i < |t| ==> t[i] in processes)
      && Distinct(s) && Distinct(t)
      && (forall i, j :: 0 <= i < |s| && 0 <= j < |t| ==> s[i] != t[j])
    }

    lemma CutApart(s: seq<Process>, t: seq<Process>, k: nat)
      requires Apart(s, t) && k < |s|
      ensures Apart(Cut(s, k), t) && Apart(t, Cut(s, k))
      ensures forall x :: (x in Cut(s, k) || x in t) <==> ((x in s || x in t) && x != s[k])
    {
      CutMembers(s, k);
    }

    ghost function First(s: seq<Process>): Process { if s == [] then marker else s[0] }

    /** The links of s run through s and end at the marker. */
    ghost predicate Linked(s: seq<Process>)
      reads s
    {
      forall i {:trigger s[i].next} :: 0 <= i < |s| ==> s[i].next == if i + 1 < |s| then s[i + 1] else marker
    }

    ghost function View(): Queues<Process>
      reads this
    {
      Queues(push, pop)
    }

    /** A process is queued at most once, and its link is non-null exactly when it is queued:
        this is what the non-null end marker buys. */
    lemma QueuedExactlyWhenLinked()
      requires Valid()
      ensures Sound(View())
      ensures forall p {:trigger p.next} :: p in processes ==> (p.next != null <==> p in Order(View()))
    {
      assert forall i :: 0 <= i < |push| ==> push[i] !in pop;
    }

    /** `init`, for a set of processes none of which is queued. */
    constructor (ghost all: set<Process>)
      requires forall p :: p in all ==> p.next == null
      ensures Valid() && View() == Queues([], []) && processes == all
    {
      var m := new Process();
      var h := new Process();
      marker, pushHead, pushTail, popHead := m, h, h, m;
      processes := all;
      push, pop := [], [];
      new;
      pushHead.next := marker;
    }

    method PushBack(p: Process)
      requires Valid() && p in processes && p.next == null
      modifies this, processes`next, pushHead`next
      ensures Valid() && View() == Apply(old(View()), Op.PushBack(p))
      ensures push == old(push) + [p] && pop == old(pop)
    {
      p.next := marker;
      pushTail.next := p;
      pushTail := p;
      push := push + [p];
    }

    method PushFront(p: Process)
      requires Valid() && p in processes && p.next == null
      modifies this, processes`next, pushHead`next
      ensures Valid() && View() == Apply(old(View()), Op.PushFront(p))
      ensures push == [p] + old(push) && pop == old(pop)
    {
      p.next := pushHead.next;
      if pushTail == pushHead {
        pushTail.next := p;
        pushTail := p;
      } else {
        pushHead.next := p;
      }
      push := [p] + push;
    }

    method ExecuteNext(p: Process)
      requires Valid() && p in processes && p.next == null
      modifies this, p`next
      ensures Valid() && View() == Apply(old(View()), Op.ExecuteNext(p))
      ensures push == old(push) && pop == [p] + old(pop)
    {
      p.next := popHead;
      popHead := p;
      pop := [p] + pop;
    }

    method Pop() returns (p: Process?)
      requires Valid()
      modifies this, processes`next
      ensures Valid() && View() == Apply(old(View()), Op.Pop)
      ensures push == old(push) && pop == if old(pop) == [] then [] else old(pop)[1..]
      ensures p == if old(pop) == [] then null else old(pop)[0]
      ensures p != null ==> p.next == null
    {
      p := popHead;
      if p == marker {
        return null;
      }
      popHead := p.next;
      p.next := null;
      pop := pop[1..];
    }

    method Toggle()
      requires Valid()
      modifies this, pushHead`next
      ensures Valid() && View() == Apply(old(View()), Op.Toggle)
      ensures if old(pop) == [] then pop == old(push) && push == [] else pop == old(pop) && push == old(push)
    {
      if popHead == marker {
        popHead := pushHead.next;
        pushHead.next := marker;
        pushTail := pushHead;
        pop, push := push, [];
      }
    }

    method Remove(p: Process)
      requires Valid() && p in processes
      modifies this, processes`next, pushHead`next
      ensures Valid() && View() == Apply(old(View()), Op.Remove(p))
      ensures push == Without(old(push), p) && pop == Without(old(pop), p) && p.next == null
    {
      var found := RemoveFromPush(p);
      if !found {
        RemoveFromPop(p);
      }
    }

    method RemoveFromPush(p: Process) returns (found: bool)
      requires Valid() && p in processes
      modifies this, processes`next, pushHead`next
      ensures Valid() && push == Without(old(push), p)
      ensures pop == old(pop) && found == (p in old(push))
      ensures found ==> p.next == null && p !in pop
    {
      ghost var i := -1;
      var prior := pushHead;
      var now := pushHead;
      while now != marker
        invariant -1 <= i <= |push| && forall k :: 0 <= k < i ==> push[k] != p
        invariant now == if i == -1 then pushHead else if i < |push| then push[i] else marker
        invariant prior == if i <= 0 then pushHead else push[i - 1]
        decreases |push| - i
      {
        if p == now {
          UnlinkPush(p, prior, i);
          return true;
        }
        prior := now;
        now := now.next;
        i := i + 1;
      }
      found := false;
    }

    /** The removal of push[i], found behind `prior`. */
    method UnlinkPush(now: Process, prior: Process, ghost i: nat)
      requires Valid() && i < |push| && push[i] == now
      requires prior == if i == 0 then pushHead else push[i - 1]
      modifies this, processes`next, pushHead`next
      ensures Valid() && push == Without(old(push), now) && pop == old(pop) && now.next == null
    {
      ghost var rest := Cut(push, i);
      CutApart(push, pop, i);
      WithoutAt(push, now, i);
      BypassPush(now, prior, i, rest);
      push := rest;
    }

    method BypassPush(now: Process, prior: Process, ghost i: nat, ghost rest: seq<Process>)
      requires Valid() && i < |push| && push[i] == now && rest == Cut(push, i)
      requires prior == if i == 0 then pushHead else push[i - 1]
      modifies this`pushTail, now`next, prior`next
      ensures Linked(rest) && pushHead.next == First(rest) && Linked(pop)
      ensures pushTail == if rest == [] then pushHead else rest[|rest| - 1]
      ensures forall p {:trigger p.next} :: p in processes ==>
                (p.next != null <==> p != now && old(p.next) != null)
    {
      prior.next := now.next;
      if now == pushTail {
        pushTail := prior;
      }
      now.next := null;
      LinksAround(i, rest, push);
    }

    /** Cutting push[i] or pop[i] out leaves every other member where the links expect it. */
    lemma LinksAround(i: nat, rest: seq<Process>, s: seq<Process>)
      requires Distinct(s) && i < |s| && rest == Cut(s, i)
      requires forall k {:trigger s[k].next} :: 0 <= k < |s| && k != i && k != i - 1 ==>
                 s[k].next == if k + 1 < |s| then s[k + 1] else marker
      requires i > 0 ==> s[i - 1].next == if i + 1 < |s| then s[i + 1] else marker
      ensures Linked(rest)
    {
      forall k | 0 <= k < |rest| ensures rest[k].next == if k + 1 < |rest| then rest[k + 1] else marker {
        assert rest[k].next == s[if k < i then k else k + 1].next;
      }
    }

    method RemoveFromPop(p: Process)
      requires Valid() && p in processes && p !in push
      modifies this, processes`next
      ensures Valid()
      ensures push == old(push) && pop == Without(old(pop), p) && p.next == null
    {
      ghost var i := 0;
      var prior: Process? := null;
      var now := popHead;
      while now != marker
        invariant 0 <= i <= |pop| && forall k :: 0 <= k < i ==> pop[k] != p
        invariant now == if i < |pop| then pop[i] else marker
        invariant prior == if i == 0 then null else pop[i - 1]
        decreases |pop| - i
      {
        if p == now {
          UnlinkPop(p, prior, i);
          return;
        }
        prior := now;
        now := now.next;
        i := i + 1;
      }
    }

    method UnlinkPop(now: Process, prior: Process?, ghost i: nat)
      requires Valid() && i < |pop| && pop[i] == now
      requires prior == if i == 0 then null else pop[i - 1]
      modifies this, processes`next
      ensures Valid() && push == old(push) && pop == Without(old(pop), now) && now.next == null
    {
      ghost var rest := Cut(pop, i);
      CutApart(pop, push, i);
      WithoutAt(pop, now, i);
      BypassPop(now, prior, i, rest);
      pop := rest;
    }

    method BypassPop(now: Process, prior: Process?, ghost i: nat, ghost rest: seq<Process>)
      requires Valid() && i < |pop| && pop[i] == now && rest == Cut(pop, i)
      requires prior == if i == 0 then null else pop[i - 1]
      modifies this`popHead, now`next, (if prior == null then {} else {prior})`next
      ensures Linked(rest) && popHead == First(rest) && Linked(push)
      ensures forall p {:trigger p.next} :: p in processes ==>
                (p.next != null <==> p != now && old(p.next) != null)
    {
      if prior != null {
        prior.next := now.next;
      } else {
        popHead := now.next;
      }
      now.next := null;
      LinksAround(i, rest, pop);
    }

    ghost function CallerOf(active: Process?): Caller<Process> {
      if active == null then MethodCaller else var p: Process := active; ThreadCaller(p)
    }

    /** preempt_with. `active` is the calling thread, or null if a method calls; what is left out
        is the calling thread's suspension. The result is the thread that a calling method runs
        directly. */
    method PreemptWith(active: Process?, target: Process) returns (direct: Process?)
      requires Valid() && target in processes
      requires active != null ==> active in processes && active.next == null
      modifies this, processes`next, pushHead`next
      ensures Valid()
      ensures View() == Preempt(old(View()), CallerOf(active), target)
      ensures if active == null then direct == target && target.next == null else direct == null
    {
      TakeOffQueue(target);
      direct := null;
      if active == null {
        direct := target;
      } else if active != target {
        var caller: Process := active;
        WithoutMembers(old(push), target, caller);
        WithoutMembers(old(pop), target, caller);
        ExecuteNext(caller);
        ExecuteNext(target);
      } else {
        ExecuteNext(target);
      }
    }

    method TakeOffQueue(target: Process)
      requires Valid() && target in processes
      modifies this, processes`next, pushHead`next
      ensures Valid() && View() == Apply(old(View()), Op.Remove(target)) && target.next == null
    {
      QueuedExactlyWhenLinked();
      if target.next != null {
        Remove(target);
      }
    }

    /** trigger_static: an event of p's static sensitivity has fired. */
    method TriggerStatic(p: Process, running: Process?)
      requires Valid() && p in processes
      modifies this, processes`next, pushHead`next, p`waitCycles, p`readyToRun
      ensures Valid()
      ensures
        var ignored := old(p.disabled) || p in old(Order(View())) || !old(p.waitsStatic) || running == p;
        && p.waitCycles == (if !ignored && old(p.waitCycles) > 0 then old(p.waitCycles) - 1 else old(p.waitCycles))
        && p.readyToRun == (old(p.readyToRun) || (!ignored && old(p.waitCycles) == 0 && old(p.suspended)))
        && View() == if !ignored && old(p.waitCycles) == 0 && !old(p.suspended)
                     then Apply(old(View()), Op.PushBack(p)) else old(View())
    {
      QueuedExactlyWhenLinked();
      if p.disabled || p.next != null || !p.waitsStatic {
        return;
      }
      if running == p {
        return;
      }
      if p.waitCycles > 0 {
        p.waitCycles := p.waitCycles - 1;
        return;
      }
      if p.suspended {
        p.readyToRun := true;
      } else {
        PushBack(p);
      }
    }
  }
}
