/**
 A bounded in-memory manager as a transition system: the protocol that the session manager
 (internal/session/session.go:200-269, 347-376) and the batch manager
 (internal/batch/manager.go:247-285, 337-405) have in common.  Each step is a channel operation or
 a critical section.  Any number of callers are inside the starting call at once; `starting` counts
 those that hold a capacity token and have not registered yet, `refused` those that found the
 manager closed and still hold theirs.
 */
module Managers {
  import Lists
  import opened Runs

  type Id = string

  /** What is managed: its own protocol, how it begins, its cancelling step, and when it was asked to end and has ended. */
  datatype Kind<!I(!new), !A(!new)> = Kind(sys: System<I, A>, begins: (Id, I) -> bool, cancel: A, asked: I -> bool, over: I -> bool)

  /** `released`: its execute goroutine has returned its token. */
  datatype Item<I> = Item(value: I, released: bool)

  /** Close: not called, sweeping over what it saw, or returned. */
  datatype Closing<T> = Open | Sweeping(todo: set<T>) | Swept

  datatype Manager<I> = Manager(capacity: nat, tokens: nat, starting: nat, refused: nat, items: map<Id, Item<I>>, closing: Closing<Id>)

  function NewManager<I>(capacity: nat): Manager<I> {
    Manager(capacity, 0, 0, 0, map[], Open)
  }

  datatype Step<I, A> =
    | Acquire                  // a caller takes a token, if one is free
    | Register(id: Id, value: I)  // ... and finds the manager open: the item exists and executes
    | Refuse                   // ... or closed
    | GiveBack                 // ... and returns its token
    | Own(id: Id, action: A)   // a step of one item, among them cancelling it
    | Release(id: Id)          // execute's deferred token return
    | CloseBegin               // the first Close marks the manager closed and lists the items
    | CloseOne(id: Id)         // ... and visits one of them
    | CloseEnd
    | CloseAgain               // any further Close returns at once

  predicate Enabled<I(!new), A(!new)>(k: Kind<I, A>, m: Manager<I>, step: Step<I, A>) {
    match step
    case Acquire => m.tokens < m.capacity
    case Register(id, value) => m.starting > 0 && m.closing.Open? && id !in m.items && k.begins(id, value)
    case Refuse => m.starting > 0 && !m.closing.Open?
    case GiveBack => m.refused > 0
    case Own(id, action) => id in m.items && k.sys.enabled(m.items[id].value, action)
    case Release(id) => id in m.items && k.over(m.items[id].value) && !m.items[id].released
    case CloseBegin => m.closing.Open?
    case CloseOne(id) => m.closing.Sweeping? && id in m.closing.todo && id in m.items
    case CloseEnd => m.closing == Sweeping({})
    case CloseAgain => !m.closing.Open?
  }

  function Less(n: nat): nat {
    if n > 0 then n - 1 else 0
  }

  function Moved<I(!new), A(!new)>(k: Kind<I, A>, items: map<Id, Item<I>>, id: Id, action: A): map<Id, Item<I>>
    requires id in items
  {
    items[id := items[id].(value := k.sys.next(items[id].value, action))]
  }

  function Next<I(!new), A(!new)>(k: Kind<I, A>, m: Manager<I>, step: Step<I, A>): Manager<I> {
    if !Enabled(k, m, step) then m else
    match step
    case Acquire => m.(tokens := m.tokens + 1, starting := m.starting + 1)
    case Register(id, value) => m.(starting := m.starting - 1, items := m.items[id := Item(value, false)])
    case Refuse => m.(starting := m.starting - 1, refused := m.refused + 1)
    case GiveBack => m.(tokens := Less(m.tokens), refused := m.refused - 1)
    case Own(id, action) => m.(items := Moved(k, m.items, id, action))
    case Release(id) => m.(tokens := Less(m.tokens), items := m.items[id := m.items[id].(released := true)])
    case CloseBegin => m.(closing := Sweeping(m.items.Keys))
    case CloseOne(id) => m.(items := Moved(k, m.items, id, k.cancel), closing := Sweeping(m.closing.todo - {id}))
    case CloseEnd => m.(closing := Swept)
    case CloseAgain => m
  }

  function Protocol<I(!new), A(!new)>(k: Kind<I, A>): System<Manager<I>, Step<I, A>> {
    System((m: Manager<I>, step: Step<I, A>) => Enabled(k, m, step), (m: Manager<I>, step: Step<I, A>) => Next(k, m, step))
  }

  ghost predicate Reachable<I(!new), A(!new)>(k: Kind<I, A>, m: Manager<I>) {
    exists capacity :: Leads(Protocol(k), NewManager(capacity), m)
  }

  /** What the manager relies on, with what every item keeps: an end and a request are final, and cancelling achieves one of them. */
  ghost predicate Lawful<I(!new), A(!new)>(k: Kind<I, A>, inv: I -> bool) {
    && (forall id, i :: k.begins(id, i) ==> inv(i))
    && Keeps(k.sys, inv)
    && (forall i, a {:trigger Lasting(k, i, a)} :: inv(i) && k.sys.enabled(i, a) ==> Lasting(k, i, a))
    && (forall i {:trigger Cancellable(k, i)} :: inv(i) ==> Cancellable(k, i))
  }

  ghost predicate Lasting<I(!new), A(!new)>(k: Kind<I, A>, i: I, action: A) {
    var next := k.sys.next(i, action);
    (k.over(i) ==> k.over(next)) && (k.asked(i) ==> k.asked(next))
  }

  ghost predicate Cancellable<I(!new), A(!new)>(k: Kind<I, A>, i: I) {
    k.sys.enabled(i, k.cancel) && Settled(k, k.sys.next(i, k.cancel))
  }

  // ---- the invariant ----

  function Holding<I>(items: map<Id, Item<I>>): set<Id> {
    set id | id in items && !items[id].released
  }

  predicate Settled<I(!new), A(!new)>(k: Kind<I, A>, i: I) {
    k.over(i) || k.asked(i)
  }

  /** An item is where some run of its own has led. */
  ghost predicate Grown<I(!new), A(!new)>(k: Kind<I, A>, id: Id, i: I) {
    exists start :: k.begins(id, start) && Leads(k.sys, start, i)
  }

  ghost predicate ItemInv<I(!new), A(!new)>(k: Kind<I, A>, inv: I -> bool, id: Id, i: Item<I>) {
    inv(i.value) && Grown(k, id, i.value) && (i.released ==> k.over(i.value))
  }

  ghost predicate ItemsInv<I(!new), A(!new)>(k: Kind<I, A>, inv: I -> bool, items: map<Id, Item<I>>) {
    forall id :: id in items ==> ItemInv(k, inv, id, items[id])
  }

  /** Every item was visited, is still to be visited, or has ended - once Close has begun. */
  ghost predicate SweepInv<I(!new), A(!new)>(k: Kind<I, A>, m: Manager<I>) {
    match m.closing
    case Open => true
    case Sweeping(todo) => todo <= m.items.Keys && forall id :: id in m.items && id !in todo ==> Settled(k, m.items[id].value)
    case Swept => forall id :: id in m.items ==> Settled(k, m.items[id].value)
  }

  /** Tokens held are starts in flight plus executions that have not released theirs. */
  ghost predicate TokenInv<I>(m: Manager<I>) {
    m.tokens == m.starting + m.refused + |Holding(m.items)| && m.tokens <= m.capacity
  }

  ghost predicate Inv<I(!new), A(!new)>(k: Kind<I, A>, inv: I -> bool, m: Manager<I>) {
    TokenInv(m) && ItemsInv(k, inv, m.items) && SweepInv(k, m)
  }

  lemma HoldingSame<I>(items: map<Id, Item<I>>, id: Id, i: Item<I>)
    requires id in items && items[id].released == i.released
    ensures Holding(items[id := i]) == Holding(items)
  {
  }

  lemma HoldingMore<I>(items: map<Id, Item<I>>, id: Id, i: Item<I>)
    requires id !in items && !i.released
    ensures |Holding(items[id := i])| == |Holding(items)| + 1
  {
    assert Holding(items[id := i]) == Holding(items) + {id};
  }

  lemma HoldingLess<I>(items: map<Id, Item<I>>, id: Id)
    requires id in items && !items[id].released
    ensures |Holding(items)| == |Holding(items[id := items[id].(released := true)])| + 1
  {
    assert Holding(items) == Holding(items[id := items[id].(released := true)]) + {id};
  }

  lemma StepKeepsTokens<I(!new), A(!new)>(k: Kind<I, A>, m: Manager<I>, step: Step<I, A>)
    requires Enabled(k, m, step) && TokenInv(m)
    ensures TokenInv(Next(k, m, step))
  {
    match step
    case Register(id, value) => HoldingMore(m.items, id, Item(value, false));
    case Own(id, action) => HoldingSame(m.items, id, Moved(k, m.items, id, action)[id]);
    case CloseOne(id) => HoldingSame(m.items, id, Moved(k, m.items, id, k.cancel)[id]);
    case Release(id) => HoldingLess(m.items, id);
    case _ =>
  }

  lemma MoveKeepsItem<I(!new), A(!new)>(k: Kind<I, A>, inv: I -> bool, id: Id, i: Item<I>, action: A)
    requires Lawful(k, inv) && ItemInv(k, inv, id, i) && k.sys.enabled(i.value, action)
    ensures ItemInv(k, inv, id, i.(value := k.sys.next(i.value, action)))
  {
    assert Lasting(k, i.value, action);
    var start :| k.begins(id, start) && Leads(k.sys, start, i.value);
    OneMore(k.sys, start, i.value, action);
  }

  lemma NewItem<I(!new), A(!new)>(k: Kind<I, A>, inv: I -> bool, id: Id, value: I)
    requires Lawful(k, inv) && k.begins(id, value)
    ensures ItemInv(k, inv, id, Item(value, false))
  {
    Stay(k.sys, value);
  }

  lemma StepKeepsItem<I(!new), A(!new)>(k: Kind<I, A>, inv: I -> bool, m: Manager<I>, step: Step<I, A>, id: Id)
    requires Lawful(k, inv) && Enabled(k, m, step) && id in Next(k, m, step).items
    requires id in m.items ==> ItemInv(k, inv, id, m.items[id])
    ensures ItemInv(k, inv, id, Next(k, m, step).items[id])
  {
    match step
    case Register(d, value) => if d == id { NewItem(k, inv, id, value); }
    case Own(d, action) => if d == id { MoveKeepsItem(k, inv, id, m.items[d], action); }
    case CloseOne(d) =>
      if d == id {
        assert Cancellable(k, m.items[d].value);
        MoveKeepsItem(k, inv, id, m.items[d], k.cancel);
      }
    case _ =>
  }

  /** Closing visits every item that it saw, and nothing else comes in. */
  lemma StepKeepsSweep<I(!new), A(!new)>(k: Kind<I, A>, inv: I -> bool, m: Manager<I>, step: Step<I, A>)
    requires Lawful(k, inv) && Enabled(k, m, step) && ItemsInv(k, inv, m.items) && SweepInv(k, m)
    ensures SweepInv(k, Next(k, m, step))
  {
    match step
    case Own(d, action) =>
      assert ItemInv(k, inv, d, m.items[d]);
      assert Lasting(k, m.items[d].value, action);
    case CloseOne(d) =>
      assert ItemInv(k, inv, d, m.items[d]);
      assert Cancellable(k, m.items[d].value);
    case _ =>
  }

  lemma StepKeepsInv<I(!new), A(!new)>(k: Kind<I, A>, inv: I -> bool, m: Manager<I>, step: Step<I, A>)
    requires Lawful(k, inv) && Inv(k, inv, m) && Enabled(k, m, step)
    ensures Inv(k, inv, Next(k, m, step))
  {
    StepKeepsTokens(k, m, step);
    StepKeepsSweep(k, inv, m, step);
    forall id | id in Next(k, m, step).items ensures ItemInv(k, inv, id, Next(k, m, step).items[id]) {
      StepKeepsItem(k, inv, m, step, id);
    }
  }

  lemma ReachableInv<I(!new), A(!new)>(k: Kind<I, A>, inv: I -> bool, m: Manager<I>)
    requires Lawful(k, inv) && Reachable(k, m)
    ensures Inv(k, inv, m)
  {
    var capacity :| Leads(Protocol(k), NewManager(capacity), m);
    var kept := (x: Manager<I>) => Inv(k, inv, x);
    forall x, step | kept(x) && Protocol(k).enabled(x, step) ensures kept(Protocol(k).next(x, step)) {
      StepKeepsInv(k, inv, x, step);
    }
    assert Keeps(Protocol(k), kept);
    LeadsKeeps(Protocol(k), kept, NewManager(capacity), m);
  }

  // ---- what holds after every run ----

  /** Whatever the manager does around it, an item only makes runs of its own: it stays, and moves on from where it was. */
  lemma ItemsMoveOn<I(!new), A(!new)>(k: Kind<I, A>, inv: I -> bool, m: Manager<I>, n: Manager<I>, id: Id)
    requires Lawful(k, inv) && Inv(k, inv, m) && Leads(Protocol(k), m, n) && id in m.items
    ensures id in n.items && Leads(k.sys, m.items[id].value, n.items[id].value)
  {
    var start := m.items[id].value;
    var on := (x: Manager<I>) => Inv(k, inv, x) && id in x.items && Leads(k.sys, start, x.items[id].value);
    Stay(k.sys, start);
    forall x, step | on(x) && Protocol(k).enabled(x, step) ensures on(Protocol(k).next(x, step)) {
      StepKeepsInv(k, inv, x, step);
      ItemMovesOn(k, inv, x, step, start, id);
    }
    assert Keeps(Protocol(k), on);
    LeadsKeeps(Protocol(k), on, m, n);
  }

  lemma ItemMovesOn<I(!new), A(!new)>(k: Kind<I, A>, inv: I -> bool, m: Manager<I>, step: Step<I, A>, start: I, id: Id)
    requires Lawful(k, inv) && ItemsInv(k, inv, m.items) && Enabled(k, m, step)
    requires id in m.items && Leads(k.sys, start, m.items[id].value)
    ensures id in Next(k, m, step).items && Leads(k.sys, start, Next(k, m, step).items[id].value)
  {
    assert ItemInv(k, inv, id, m.items[id]);
    match step
    case Own(d, action) => if d == id { OneMore(k.sys, start, m.items[id].value, action); }
    case CloseOne(d) =>
      if d == id {
        assert Cancellable(k, m.items[id].value);
        OneMore(k.sys, start, m.items[id].value, k.cancel);
      }
    case _ =>
  }

  function Active<I(!new), A(!new)>(k: Kind<I, A>, items: map<Id, Item<I>>): set<Id> {
    set id | id in items && !k.over(items[id].value)
  }

  /** Work that has not ended never exceeds the limit, and every token taken is accounted for. */
  lemma CapacityBoundsActiveWork<I(!new), A(!new)>(k: Kind<I, A>, inv: I -> bool, m: Manager<I>)
    requires Inv(k, inv, m)
    ensures |Active(k, m.items)| <= m.capacity
    ensures m.tokens == m.starting + m.refused + |Holding(m.items)| <= m.capacity
  {
    forall id | id in Active(k, m.items) ensures id in Holding(m.items) {
      assert ItemInv(k, inv, id, m.items[id]);
    }
    Lists.SubsetSize(Active(k, m.items), Holding(m.items));
  }

  /** Nothing leaks: with nobody starting and every execution returned, all tokens are free. */
  lemma QuietMeansFree<I>(m: Manager<I>)
    requires TokenInv(m) && m.starting == 0 && m.refused == 0
    requires forall id :: id in m.items ==> m.items[id].released
    ensures m.tokens == 0
  {
    assert Holding(m.items) == {};
  }

  /** Nothing is registered once the manager is closed. */
  lemma ClosedStaysClosed<I(!new), A(!new)>(k: Kind<I, A>, m: Manager<I>, n: Manager<I>)
    requires Leads(Protocol(k), m, n) && !m.closing.Open?
    ensures !n.closing.Open? && n.items.Keys == m.items.Keys
  {
    var closed := (x: Manager<I>) => !x.closing.Open? && x.items.Keys == m.items.Keys;
    assert Keeps(Protocol(k), closed);
    LeadsKeeps(Protocol(k), closed, m, n);
  }

  /** Once the sweeping Close has returned, whatever exists later existed then, and it has ended or was asked to. */
  lemma CloseGuarantee<I(!new), A(!new)>(k: Kind<I, A>, inv: I -> bool, m: Manager<I>, n: Manager<I>, id: Id)
    requires Lawful(k, inv) && Inv(k, inv, m) && m.closing.Swept? && Leads(Protocol(k), m, n) && id in n.items
    ensures id in m.items && Settled(k, m.items[id].value) && Leads(k.sys, m.items[id].value, n.items[id].value)
  {
    ClosedStaysClosed(k, m, n);
    ItemsMoveOn(k, inv, m, n, id);
  }

  /**
   What a further Close, which returns at once, may be relied on for: everything is settled exactly
   when the first Close has returned, or whatever it has yet to visit is settled anyway.
   */
  lemma SecondCloseIff<I(!new), A(!new)>(k: Kind<I, A>, m: Manager<I>)
    requires SweepInv(k, m) && Enabled(k, m, CloseAgain)
    ensures (forall id :: id in m.items ==> Settled(k, m.items[id].value))
            <==> m.closing.Swept? || forall id :: id in m.closing.todo ==> id in m.items && Settled(k, m.items[id].value)
  {
  }

  // ---- what the manager allows ----

  /** A start is turned away exactly when starts in flight and executions fill the capacity. */
  lemma StartIsPossibleIff<I(!new), A(!new)>(k: Kind<I, A>, inv: I -> bool, m: Manager<I>)
    requires Inv(k, inv, m)
    ensures Enabled(k, m, Acquire) <==> m.starting + m.refused + |Holding(m.items)| < m.capacity
  {
  }

  /** Nobody is refused but by a closed manager. */
  lemma RefusedWhenClosed<I(!new), A(!new)>(k: Kind<I, A>, m: Manager<I>)
    requires Reachable(k, m) && m.refused > 0
    ensures !m.closing.Open?
  {
    var capacity :| Leads(Protocol(k), NewManager(capacity), m);
    var closed := (x: Manager<I>) => x.refused > 0 ==> !x.closing.Open?;
    assert Keeps(Protocol(k), closed);
    LeadsKeeps(Protocol(k), closed, NewManager(capacity), m);
  }

  /** An item may make any run of its own; nothing else changes. */
  lemma {:induction false} ItemsMayMoveOn<I(!new), A(!new)>(k: Kind<I, A>, m: Manager<I>, id: Id, run: seq<A>) returns (n: Manager<I>)
    requires id in m.items && Valid(k.sys, m.items[id].value, run)
    ensures Leads(Protocol(k), m, n) && n == m.(items := m.items[id := m.items[id].(value := After(k.sys, m.items[id].value, run))])
    decreases |run|
  {
    if run == [] {
      n := m;
      assert m.items[id := m.items[id].(value := m.items[id].value)] == m.items;
      Stay(Protocol(k), m);
    } else {
      var step := Own(id, run[0]);
      var moved := Next(k, m, step);
      n := ItemsMayMoveOn(k, moved, id, run[1..]);
      Prepend(Protocol(k), m, step, n);
    }
  }

  lemma HoldingSome<I>(items: map<Id, Item<I>>)
    requires |Holding(items)| > 0
    ensures exists id :: id in items && !items[id].released
  {
    var id :| id in Holding(items);
  }

  lemma NobodyHolds<I>(m: Manager<I>)
    requires TokenInv(m) && m.starting == 0 && m.refused == 0 && |Holding(m.items)| == 0
    ensures m.tokens == 0
  {
  }

  /** A closed manager whose work has ended can give back every token. */
  lemma {:induction false} ClosedManagerDrains<I(!new), A(!new)>(k: Kind<I, A>, m: Manager<I>) returns (n: Manager<I>)
    requires TokenInv(m) && !m.closing.Open? && forall id :: id in m.items ==> k.over(m.items[id].value)
    ensures Leads(Protocol(k), m, n) && n.tokens == 0 && n.starting == 0 && n.refused == 0
    ensures n.items.Keys == m.items.Keys && forall id :: id in n.items ==> n.items[id].value == m.items[id].value
    decreases 2 * m.starting + m.refused + |Holding(m.items)|
  {
    Stay(Protocol(k), m);
    n := m;
    if m.starting > 0 || m.refused > 0 {
      var step: Step<I, A> := if m.starting > 0 then Refuse else GiveBack;
      StepKeepsTokens(k, m, step);
      n := ClosedManagerDrains(k, Next(k, m, step));
      Prepend(Protocol(k), m, step, n);
    } else if |Holding(m.items)| > 0 {
      HoldingSome(m.items);
      var id :| id in m.items && !m.items[id].released;
      StepKeepsTokens(k, m, Release(id));
      HoldingLess(m.items, id);
      n := ClosedManagerDrains(k, Next(k, m, Release(id)));
      Prepend(Protocol(k), m, Release(id), n);
    } else {
      NobodyHolds(m);
    }
  }
}
