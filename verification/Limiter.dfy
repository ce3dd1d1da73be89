// The duplicate-acknowledgement limiter (cajui_application.cpp) on a clock that wraps.
module Limiter {
  import opened Protocol
  import opened Records
  import opened Clocks

  const WINDOW_MS := 60000
  const PER_WINDOW := 3

  datatype Slot = Slot(node: u64, since: u32, count: nat)

  const FREE_SLOT := Slot(0, 0, 0)

  type Slots = s: seq<Slot> | |s| == BINDING_CAPACITY witness FreeSlots()

  function FreeSlots(): (s: seq<Slot>)
    ensures |s| == BINDING_CAPACITY && forall i | 0 <= i < |s| :: s[i] == FREE_SLOT
  {
    seq(BINDING_CAPACITY, i => FREE_SLOT)
  }

  // ------------------------------------------------------------------ one call

  /** The last of the first `n` slots that is the node's. */
  function Own(s: Slots, node: u64, n: nat): (r: Option<nat>)
    requires n <= BINDING_CAPACITY
    ensures r.Some? ==> r.value < n && s[r.value].node == node
    ensures r.None? ==> forall i | 0 <= i < n :: s[i].node != node
  {
    if n == 0 then None else if s[n - 1].node == node then Some(n - 1) else Own(s, node, n - 1)
  }

  predicate Reusable(x: Slot, now: u32) { x.node == 0 || Elapsed(now, x.since) >= WINDOW_MS }

  /** The last of the first `n` slots that is free or expired. */
  function Spare(s: Slots, now: u32, n: nat): (r: Option<nat>)
    requires n <= BINDING_CAPACITY
    ensures r.Some? ==> r.value < n && Reusable(s[r.value], now)
    ensures r.None? ==> forall i | 0 <= i < n :: !Reusable(s[i], now)
  {
    if n == 0 then None else if Reusable(s[n - 1], now) then Some(n - 1) else Spare(s, now, n - 1)
  }

  /** The slot used and its contents before counting: the node's window, renewed when it is over. */
  function Window(s: Slots, node: u64, now: u32): Option<(nat, Slot)>
  {
    var own := Own(s, node, BINDING_CAPACITY);
    if own.Some? then
      var x := s[own.value];
      Some((own.value, if Elapsed(now, x.since) >= WINDOW_MS then Slot(node, now, 0) else x))
    else
      var spare := Spare(s, now, BINDING_CAPACITY);
      if spare.None? then None else Some((spare.value, Slot(node, now, 0)))
  }

  /** `allow`: the slots after the call, and whether an acknowledgement is granted. */
  function Allowed(s: Slots, node: u64, now: u32): (Slots, bool)
    requires node != 0
  {
    match Window(s, node, now)
    case None => (s, false)
    case Some((i, x)) =>
      assert i < BINDING_CAPACITY;
      if x.count >= PER_WINDOW then (s[i := x], false) else (s[i := x.(count := x.count + 1)], true)
  }

  class DuplicateAckLimiter {
    var slots: Slots

    constructor ()
      ensures slots == FreeSlots()
    {
      slots := FreeSlots();
    }

    method Allow(node: u64, now: u32) returns (granted: bool)
      requires node != 0
      modifies this
      ensures (slots, granted) == Allowed(old(slots), node, now)
    {
      var own: Option<nat> := None;
      for i := 0 to BINDING_CAPACITY
        invariant own == Own(slots, node, i)
      {
        if slots[i].node == node {
          own := Some(i);
        }
      }
      if own.None? {
        for i := 0 to BINDING_CAPACITY
          invariant own == Spare(slots, now, i)
        {
          if slots[i].node == 0 || Elapsed(now, slots[i].since) >= WINDOW_MS {
            own := Some(i);
          }
        }
        if own.None? {
          return false;
        }
        slots := slots[own.value := Slot(node, now, 0)];
      }
      var x := slots[own.value];
      if Elapsed(now, x.since) >= WINDOW_MS {
        x := Slot(node, now, 0);
        slots := slots[own.value := x];
      }
      if x.count >= PER_WINDOW {
        assert slots == old(slots)[own.value := x];
        return false;
      }
      slots := slots[own.value := x.(count := x.count + 1)];
      assert slots == old(slots)[own.value := x.(count := x.count + 1)];
      return true;
    }
  }

  /** The node's window: its slot, within a minute of the start as the clock reads it. */
  ghost predicate Live(s: Slots, node: u64, now: u32, i: nat)
  {
    i < BINDING_CAPACITY && s[i].node == node && Elapsed(now, s[i].since) < WINDOW_MS
  }

  /** A slot in which a window can start: free, the node's own, or one whose minute is over. */
  ghost predicate Open(s: Slots, node: u64, now: u32, i: nat)
  {
    i < BINDING_CAPACITY && (s[i].node == 0 || s[i].node == node || Elapsed(now, s[i].since) >= WINDOW_MS)
  }

  ghost predicate OneSlotEach(s: Slots)
  {
    forall i, j | 0 <= i < j < BINDING_CAPACITY && s[i].node != 0 :: s[i].node != s[j].node
  }

  /**
   * When a call is granted: within the node's window exactly while fewer than three were, and
   * outside one exactly when some slot is open, in which a window then starts. A granted call
   * is counted in that slot; no call touches another one.
   */
  lemma GrantedIff(s: Slots, node: u64, now: u32)
    requires node != 0 && OneSlotEach(s)
    ensures forall i: nat | Live(s, node, now, i) ::
      && Allowed(s, node, now).1 == (s[i].count < PER_WINDOW)
      && Allowed(s, node, now).0 == if s[i].count < PER_WINDOW then s[i := s[i].(count := s[i].count + 1)] else s
    ensures NoneLive(s, node, now) ==> Allowed(s, node, now).1 == exists i: nat :: Open(s, node, now, i)
    ensures NoneLive(s, node, now) ==>
      if Allowed(s, node, now).1 then
        exists i: nat | Open(s, node, now, i) :: Allowed(s, node, now).0 == s[i := Slot(node, now, 1)]
      else Allowed(s, node, now).0 == s
  {
    var own, spare := Own(s, node, BINDING_CAPACITY), Spare(s, now, BINDING_CAPACITY);
    if own.Some? {
      assert forall j: nat | Live(s, node, now, j) :: j == own.value;
      assert Live(s, node, now, own.value) || Open(s, node, now, own.value);
    } else if spare.Some? {
      assert Open(s, node, now, spare.value);
    }
  }

  ghost predicate NoneLive(s: Slots, node: u64, now: u32) { forall i: nat :: !Live(s, node, now, i) }

  // ------------------------------------------------------------------ a run, in true time

  /** One granted acknowledgement: to whom, when, and when its window started. */
  datatype Grant = Grant(node: u64, time: nat, window: nat)

  datatype Call = Call(node: u64, time: nat)

  /** The limiter, when each slot's window truly started, and every grant so far. */
  datatype Log = Log(slots: Slots, starts: seq<nat>, grants: seq<Grant>, time: nat)

  const NEW_LOG := Log(FreeSlots(), NoStarts(), [], 0)

  function NoStarts(): (s: seq<nat>)
    ensures |s| == BINDING_CAPACITY
  {
    seq(BINDING_CAPACITY, i => 0)
  }

  /** Whether the call begins a new window in the slot it uses. */
  predicate Renews(l: Log, node: u64, i: nat, now: u32)
    requires i < BINDING_CAPACITY
  {
    l.slots[i].node != node || Elapsed(now, l.slots[i].since) >= WINDOW_MS
  }

  function Called(l: Log, x: Call): Log
    requires x.node != 0 && |l.starts| == BINDING_CAPACITY
    ensures |Called(l, x).starts| == BINDING_CAPACITY
  {
    var now := Reading32(x.time);
    var (slots, granted) := Allowed(l.slots, x.node, now);
    match Window(l.slots, x.node, now)
    case None => l.(time := x.time)
    case Some((i, w)) =>
      assert i < BINDING_CAPACITY;
      var starts := if Renews(l, x.node, i, now) then l.starts[i := x.time] else l.starts;
      Log(slots, starts, if granted then l.grants + [Grant(x.node, x.time, starts[i])] else l.grants, x.time)
  }

  /** The slots of the log are those the limiter has after the call. */
  lemma CalledSlots(l: Log, x: Call)
    requires x.node != 0 && |l.starts| == BINDING_CAPACITY
    ensures Called(l, x).slots == Allowed(l.slots, x.node, Reading32(x.time)).0
  {
  }

  /** A call is granted exactly when it adds to the grants. */
  lemma GrantedAdds(l: Log, x: Call)
    requires x.node != 0 && |l.starts| == BINDING_CAPACITY
    ensures Allowed(l.slots, x.node, Reading32(x.time)).1 <==> Called(l, x).grants != l.grants
  {
    var grants := Called(l, x).grants;
    assert Allowed(l.slots, x.node, Reading32(x.time)).1 ==> |grants| == |l.grants| + 1;
  }

  function RunOf(calls: seq<Call>): (l: Log)
    requires forall i | 0 <= i < |calls| :: calls[i].node != 0
    ensures |l.starts| == BINDING_CAPACITY
  {
    if calls == [] then NEW_LOG else Called(RunOf(calls[..|calls| - 1]), calls[|calls| - 1])
  }

  function CountWhere(gs: seq<Grant>, p: Grant -> bool): nat
  {
    if gs == [] then 0 else CountWhere(gs[..|gs| - 1], p) + if p(gs[|gs| - 1]) then 1 else 0
  }

  function InWindow(node: u64, window: nat): Grant -> bool { (g: Grant) => g.node == node && g.window == window }

  function InMinute(node: u64, from: nat): Grant -> bool
  {
    (g: Grant) => g.node == node && from <= g.time < from + WINDOW_MS
  }

  // ------------------------------------------------------------------ the invariant

  ghost predicate SlotsInv(l: Log)
  {
    && |l.starts| == BINDING_CAPACITY
    && (forall i | 0 <= i < BINDING_CAPACITY && l.slots[i].node != 0 ::
          l.slots[i].since == Reading32(l.starts[i]) && l.starts[i] <= l.time && l.slots[i].count <= PER_WINDOW)
    && (forall i, j | 0 <= i < BINDING_CAPACITY && 0 <= j < BINDING_CAPACITY && l.slots[i].node != 0 && i != j ::
          l.slots[i].node != l.slots[j].node)
  }

  /** The grant was made under the node's present window, or before it and a minute after its own start. */
  ghost predicate Past(l: Log, g: Grant)
    requires |l.starts| == BINDING_CAPACITY
  {
    match Own(l.slots, g.node, BINDING_CAPACITY)
    case Some(i) => Before(g, l.starts[i])
    case None => g.window + WINDOW_MS <= l.time
  }

  predicate Before(g: Grant, start: nat) { start == g.window || (g.window + WINDOW_MS <= start && g.time <= start) }

  ghost predicate GrantsInv(l: Log)
    requires |l.starts| == BINDING_CAPACITY
  {
    && (forall g | g in l.grants :: g.node != 0 && g.window <= g.time <= l.time && Past(l, g))
    && (forall g, h | g in l.grants && h in l.grants && g.node == h.node && g.window < h.window ::
          g.window + WINDOW_MS <= h.window && g.time <= h.window)
  }

  ghost predicate CountsInv(l: Log)
    requires |l.starts| == BINDING_CAPACITY
  {
    && (forall node, window :: CountWhere(l.grants, InWindow(node, window)) <= PER_WINDOW)
    && (forall i | 0 <= i < BINDING_CAPACITY && l.slots[i].node != 0 ::
          CountWhere(l.grants, InWindow(l.slots[i].node, l.starts[i])) == l.slots[i].count)
  }

  /** Every window was opened by a grant. */
  ghost predicate FirstInv(l: Log)
    requires |l.starts| == BINDING_CAPACITY
  {
    && (forall g | g in l.grants :: Grant(g.node, g.window, g.window) in l.grants)
    && (forall i | 0 <= i < BINDING_CAPACITY && l.slots[i].node != 0 ::
          Grant(l.slots[i].node, l.starts[i], l.starts[i]) in l.grants)
  }

  ghost predicate LogInv(l: Log) { SlotsInv(l) && GrantsInv(l) && CountsInv(l) && FirstInv(l) }

  /** The modular distance never exceeds the true one. */
  lemma ElapsedAtMost(since: nat, now: nat)
    requires since <= now
    ensures Elapsed(Reading32(now), Reading32(since)) <= now - since
  {
  }

  lemma {:induction false} OwnUnique(s: Slots, node: u64, i: nat, n: nat)
    requires i < n <= BINDING_CAPACITY && s[i].node == node
    requires forall j | 0 <= j < BINDING_CAPACITY && j != i :: s[j].node != node
    ensures Own(s, node, n) == Some(i)
  {
    if i < n - 1 {
      OwnUnique(s, node, i, n - 1);
    }
  }

  lemma {:induction false} OwnNone(s: Slots, node: u64, n: nat)
    requires n <= BINDING_CAPACITY && forall j | 0 <= j < BINDING_CAPACITY :: s[j].node != node
    ensures Own(s, node, n) == None
  {
    if n != 0 {
      OwnNone(s, node, n - 1);
    }
  }

  lemma {:induction false} CountZero(gs: seq<Grant>, p: Grant -> bool)
    requires forall g | g in gs :: !p(g)
    ensures CountWhere(gs, p) == 0
  {
    if gs != [] {
      CountZero(gs[..|gs| - 1], p);
    }
  }

  lemma {:induction false} CountEither(gs: seq<Grant>, p: Grant -> bool, q: Grant -> bool, r: Grant -> bool)
    requires forall g | g in gs && p(g) :: q(g) || r(g)
    ensures CountWhere(gs, p) <= CountWhere(gs, q) + CountWhere(gs, r)
  {
    if gs != [] {
      CountEither(gs[..|gs| - 1], p, q, r);
    }
  }

  lemma CountMore(gs: seq<Grant>, g: Grant, p: Grant -> bool)
    ensures CountWhere(gs + [g], p) == CountWhere(gs, p) + if p(g) then 1 else 0
  {
    assert (gs + [g])[..|gs|] == gs;
  }

  /** The slot a call uses, its window's true start, and what the call knows about older windows. */
  lemma UsedSlot(l: Log, x: Call, i: nat, w: Slot)
    requires LogInv(l) && x.node != 0 && l.time <= x.time && i < BINDING_CAPACITY
    requires Window(l.slots, x.node, Reading32(x.time)) == Some((i, w))
    ensures Called(l, x).slots[i].node == x.node
    ensures Called(l, x).slots[i].since == Reading32(Called(l, x).starts[i])
    ensures Called(l, x).starts[i] <= x.time
    ensures forall j | 0 <= j < BINDING_CAPACITY && j != i ::
      l.slots[j].node != x.node && Called(l, x).slots[j] == l.slots[j] && Called(l, x).starts[j] == l.starts[j]
    ensures l.slots[i].node != x.node && l.slots[i].node != 0 ==> l.starts[i] + WINDOW_MS <= x.time
    ensures l.slots[i].node == x.node ==>
      Called(l, x).starts[i] == l.starts[i] || l.starts[i] + WINDOW_MS <= Called(l, x).starts[i]
    ensures l.slots[i].node != x.node ==>
      Called(l, x).starts[i] == x.time && Own(l.slots, x.node, BINDING_CAPACITY).None?
    ensures Own(Called(l, x).slots, x.node, BINDING_CAPACITY) == Some(i)
  {
    if l.slots[i].node != 0 {
      ElapsedAtMost(l.starts[i], x.time);
    }
    var own := Own(l.slots, x.node, BINDING_CAPACITY);
    assert own.Some? ==> own.value == i;
    OwnUnique(Called(l, x).slots, x.node, i, BINDING_CAPACITY);
  }

  lemma SlotsKept(l: Log, x: Call)
    requires LogInv(l) && x.node != 0 && l.time <= x.time
    ensures SlotsInv(Called(l, x))
  {
    var used := Window(l.slots, x.node, Reading32(x.time));
    if used.Some? {
      UsedSlot(l, x, used.value.0, used.value.1);
    }
  }

  /** What was past stays past. */
  lemma PastKept(l: Log, x: Call, g: Grant)
    requires LogInv(l) && x.node != 0 && l.time <= x.time && g in l.grants
    ensures Past(Called(l, x), g)
    ensures g.node == x.node && Window(l.slots, x.node, Reading32(x.time)).Some? ==>
      Before(g, Called(l, x).starts[Window(l.slots, x.node, Reading32(x.time)).value.0])
  {
    var t := Called(l, x);
    SlotsKept(l, x);
    var used := Window(l.slots, x.node, Reading32(x.time));
    if used.Some? {
      var i := used.value.0;
      UsedSlot(l, x, i, used.value.1);
      var own := Own(l.slots, g.node, BINDING_CAPACITY);
      if g.node != x.node {
        if own.Some? && own.value != i {
          OwnUnique(t.slots, g.node, own.value, BINDING_CAPACITY);
        } else {
          forall j | 0 <= j < BINDING_CAPACITY ensures t.slots[j].node != g.node {
            if j != i {
              assert own.Some? ==> l.slots[own.value].node == g.node;
            }
          }
          OwnNone(t.slots, g.node, BINDING_CAPACITY);
        }
      }
    }
  }

  lemma GrantsKept(l: Log, x: Call)
    requires LogInv(l) && x.node != 0 && l.time <= x.time
    ensures SlotsInv(Called(l, x)) && GrantsInv(Called(l, x))
  {
    var t := Called(l, x);
    SlotsKept(l, x);
    forall g | g in l.grants ensures Past(t, g) {
      PastKept(l, x, g);
    }
    var used := Window(l.slots, x.node, Reading32(x.time));
    if t.grants != l.grants {
      var i := used.value.0;
      UsedSlot(l, x, i, used.value.1);
      var mine := Grant(x.node, x.time, t.starts[i]);
      assert t.grants == l.grants + [mine] && Past(t, mine);
      forall g | g in l.grants && g.node == x.node
        ensures g.window == mine.window || (g.window + WINDOW_MS <= mine.window && g.time <= mine.window)
      {
        PastKept(l, x, g);
      }
      forall g, h | g in t.grants && h in t.grants && g.node == h.node && g.window < h.window
        ensures g.window + WINDOW_MS <= h.window && g.time <= h.window
      {
        assert g in l.grants || g == mine;
        assert h in l.grants || h == mine;
      }
    }
  }

  lemma CountsKept(l: Log, x: Call)
    requires LogInv(l) && x.node != 0 && l.time <= x.time
    ensures CountsInv(Called(l, x))
  {
    var t := Called(l, x);
    var used := Window(l.slots, x.node, Reading32(x.time));
    if used.Some? {
      var i := used.value.0;
      UsedSlot(l, x, i, used.value.1);
      UsedCount(l, x, i, used.value.1);
      if t.grants == l.grants {
        forall j | 0 <= j < BINDING_CAPACITY && t.slots[j].node != 0
          ensures CountWhere(t.grants, InWindow(t.slots[j].node, t.starts[j])) == t.slots[j].count
        {
        }
      } else {
        MineCounted(l, x, i, used.value.1);
      }
    }
  }

  /** The grants of the window in use, before this call. */
  lemma UsedCount(l: Log, x: Call, i: nat, w: Slot)
    requires LogInv(l) && x.node != 0 && l.time <= x.time && i < BINDING_CAPACITY
    requires Window(l.slots, x.node, Reading32(x.time)) == Some((i, w))
    ensures CountWhere(l.grants, InWindow(x.node, Called(l, x).starts[i])) == w.count
    ensures Called(l, x).slots[i] == (if Called(l, x).grants == l.grants then w else w.(count := w.count + 1))
    ensures Called(l, x).grants != l.grants ==> w.count < PER_WINDOW
  {
    UsedSlot(l, x, i, w);
    var start := Called(l, x).starts[i];
    if Renews(l, x.node, i, Reading32(x.time)) {
      forall g | g in l.grants ensures !InWindow(x.node, start)(g) {
        if g.node == x.node {
          PastKept(l, x, g);
          NotNow(l, x, g, i);
        }
      }
      CountZero(l.grants, InWindow(x.node, start));
    }
  }

  /** No earlier grant was made under a window that starts now. */
  lemma NotNow(l: Log, x: Call, g: Grant, i: nat)
    requires LogInv(l) && l.time <= x.time && g in l.grants && g.node == x.node && i < BINDING_CAPACITY
    requires Renews(l, x.node, i, Reading32(x.time))
    requires l.slots[i].node == x.node || Own(l.slots, x.node, BINDING_CAPACITY).None?
    ensures g.window != x.time
  {
    assert Past(l, g);
    if l.slots[i].node == x.node {
      var own := Own(l.slots, g.node, BINDING_CAPACITY);
      assert own == Some(i);
      ElapsedAtMost(l.starts[i], x.time);
    }
  }

  lemma MineLast(l: Log, x: Call, i: nat, w: Slot)
    requires x.node != 0 && |l.starts| == BINDING_CAPACITY && i < BINDING_CAPACITY
    requires Window(l.slots, x.node, Reading32(x.time)) == Some((i, w)) && Called(l, x).grants != l.grants
    ensures Called(l, x).grants == l.grants + [Grant(x.node, x.time, Called(l, x).starts[i])]
  {
  }

  lemma MineCounted(l: Log, x: Call, i: nat, w: Slot)
    requires LogInv(l) && x.node != 0 && l.time <= x.time && i < BINDING_CAPACITY
    requires Window(l.slots, x.node, Reading32(x.time)) == Some((i, w)) && Called(l, x).grants != l.grants
    ensures CountsInv(Called(l, x))
  {
    assert |l.starts| == BINDING_CAPACITY;
    hide Called, Window, SlotsInv, GrantsInv, FirstInv, CountWhere;
    var t := Called(l, x);
    UsedSlot(l, x, i, w);
    UsedCount(l, x, i, w);
    var mine := Grant(x.node, x.time, t.starts[i]);
    MineLast(l, x, i, w);
    forall node, window ensures CountWhere(t.grants, InWindow(node, window)) <= PER_WINDOW {
      CountMore(l.grants, mine, InWindow(node, window));
    }
    forall j | 0 <= j < BINDING_CAPACITY && t.slots[j].node != 0
      ensures CountWhere(t.grants, InWindow(t.slots[j].node, t.starts[j])) == t.slots[j].count
    {
      CountMore(l.grants, mine, InWindow(t.slots[j].node, t.starts[j]));
    }
  }

  lemma FirstKept(l: Log, x: Call)
    requires LogInv(l) && x.node != 0 && l.time <= x.time
    ensures FirstInv(Called(l, x))
  {
    var t := Called(l, x);
    var used := Window(l.slots, x.node, Reading32(x.time));
    if used.Some? {
      var i := used.value.0;
      UsedSlot(l, x, i, used.value.1);
      if t.grants != l.grants {
        assert t.grants == l.grants + [Grant(x.node, x.time, t.starts[i])];
      }
      forall g | g in l.grants ensures g in t.grants {
      }
      if !Renews(l, x.node, i, Reading32(x.time)) {
        assert Grant(x.node, l.starts[i], l.starts[i]) in l.grants;
      }
    }
  }

  lemma CallKeeps(l: Log, x: Call)
    requires LogInv(l) && x.node != 0 && l.time <= x.time
    ensures LogInv(Called(l, x))
  {
    hide Called, SlotsInv, GrantsInv, CountsInv, FirstInv;
    GrantsKept(l, x);
    CountsKept(l, x);
    FirstKept(l, x);
  }

  predicate InOrder(calls: seq<Call>)
  {
    && (forall i | 0 <= i < |calls| :: calls[i].node != 0)
    && (forall i, j | 0 <= i < j < |calls| :: calls[i].time <= calls[j].time)
  }

  lemma {:induction false} EveryLog(calls: seq<Call>)
    requires InOrder(calls)
    ensures LogInv(RunOf(calls)) && (calls != [] ==> RunOf(calls).time == calls[|calls| - 1].time)
  {
    if calls == [] {
      NewLogInv();
    } else {
      EveryLog(calls[..|calls| - 1]);
      CallKeeps(RunOf(calls[..|calls| - 1]), calls[|calls| - 1]);
    }
  }

  lemma NewLogInv()
    ensures LogInv(NEW_LOG) && NEW_LOG.time == 0
  {
  }

  /**
   * Bounded duplicate acknowledgements: over any run of nodes and times, across clock wraps
   * and slot reuse, no node is granted more than five in any interval of a minute. A window
   * opens with a grant, so the three of an older window never all fall in the interval.
   */
  lemma AtMostFiveAMinute(calls: seq<Call>, node: u64, from: nat)
    requires InOrder(calls)
    ensures CountWhere(RunOf(calls).grants, InMinute(node, from)) <= 5
  {
    EveryLog(calls);
    var l := RunOf(calls);
    hide RunOf, SlotsInv;
    if g :| g in l.grants && InMinute(node, from)(g) {
      var w := LatestIn(l.grants, InMinute(node, from), g);
      var v := OtherWindow(l, node, from, w);
      var older := Both(InWindow(node, v), InMinute(node, from));
      if v < w.window {
        CountEither(l.grants, InMinute(node, from), InWindow(node, w.window), older);
        OlderLosesFirst(l, node, from, v);
      } else {
        CountEither(l.grants, InMinute(node, from), InWindow(node, w.window), InWindow(node, w.window));
        CountEither(l.grants, InMinute(node, from), InWindow(node, w.window), Never);
        CountZero(l.grants, Never);
      }
    } else {
      CountZero(l.grants, InMinute(node, from));
    }
  }

  function Never(g: Grant): bool { false }

  function Both(p: Grant -> bool, q: Grant -> bool): Grant -> bool { (g: Grant) => p(g) && q(g) }

  lemma {:induction false} CountFewer(gs: seq<Grant>, p: Grant -> bool, q: Grant -> bool, g: Grant)
    requires g in gs && q(g) && !p(g) && forall h | h in gs && p(h) :: q(h)
    ensures CountWhere(gs, p) + 1 <= CountWhere(gs, q)
  {
    var rest, last := gs[..|gs| - 1], gs[|gs| - 1];
    if g in rest {
      CountFewer(rest, p, q, g);
    } else {
      CountEither(rest, p, q, Never);
      CountZero(rest, Never);
    }
  }

  /** An older window with grants in the interval opened before it, with a grant. */
  lemma OlderLosesFirst(l: Log, node: u64, from: nat, v: nat)
    requires |l.starts| == BINDING_CAPACITY && GrantsInv(l) && CountsInv(l) && FirstInv(l)
    requires exists w | w in l.grants :: InMinute(node, from)(w) && v < w.window
    ensures CountWhere(l.grants, Both(InWindow(node, v), InMinute(node, from))) <= 2
  {
    var older := Both(InWindow(node, v), InMinute(node, from));
    var w :| w in l.grants && InMinute(node, from)(w) && v < w.window;
    if u :| u in l.grants && older(u) {
      var first := Grant(node, v, v);
      assert first in l.grants && v + WINDOW_MS <= w.window <= w.time < from + WINDOW_MS;
      CountFewer(l.grants, older, InWindow(node, v), first);
    } else {
      CountZero(l.grants, older);
    }
  }

  /** A grant with the greatest window among those that satisfy the test. */
  lemma {:induction false} LatestIn(gs: seq<Grant>, p: Grant -> bool, g: Grant) returns (w: Grant)
    requires g in gs && p(g)
    ensures w in gs && p(w) && forall h | h in gs && p(h) :: h.window <= w.window
  {
    var rest, last := gs[..|gs| - 1], gs[|gs| - 1];
    if h :| h in rest && p(h) {
      w := LatestIn(rest, p, h);
      if p(last) && last.window > w.window {
        w := last;
      }
    } else {
      w := g;
    }
  }

  /** All other grants of the minute were made under one earlier window. */
  lemma OtherWindow(l: Log, node: u64, from: nat, w: Grant) returns (v: nat)
    requires |l.starts| == BINDING_CAPACITY && GrantsInv(l) && w in l.grants && InMinute(node, from)(w)
    requires forall g | g in l.grants && InMinute(node, from)(g) :: g.window <= w.window
    ensures v <= w.window
    ensures forall g | g in l.grants && InMinute(node, from)(g) :: g.window == w.window || g.window == v
  {
    v := w.window;
    if u :| u in l.grants && InMinute(node, from)(u) && u.window < w.window {
      v := u.window;
      forall g | g in l.grants && InMinute(node, from)(g) ensures g.window == w.window || g.window == v {
        assert g.window < u.window ==> g.time <= u.window;
        assert u.window < g.window ==> u.time <= g.window;
      }
    }
  }

  lemma OneMore(calls: seq<Call>, x: Call)
    requires InOrder(calls + [x]) && InOrder(calls)
    ensures RunOf(calls + [x]) == Called(RunOf(calls), x)
    ensures LogInv(RunOf(calls)) && OneSlotEach(RunOf(calls).slots) && RunOf(calls).time <= x.time
  {
    var all := calls + [x];
    EveryLog(calls);
    assert all[..|calls|] == calls && all[|calls|] == x;
    assert calls != [] ==> all[|calls| - 1].time <= all[|calls|].time;
  }

  /**
   * The first three calls of a window are granted: a call within a minute of true time of the
   * start of its node's window is granted exactly when fewer than three of that window were.
   */
  lemma FirstThree(calls: seq<Call>, x: Call, g: Grant)
    requires InOrder(calls + [x]) && InOrder(calls)
    requires g in RunOf(calls).grants && g.node == x.node && x.time < g.window + WINDOW_MS
    ensures RunOf(calls + [x]).grants ==
      if CountWhere(RunOf(calls).grants, InWindow(x.node, g.window)) < PER_WINDOW
      then RunOf(calls).grants + [Grant(x.node, x.time, g.window)] else RunOf(calls).grants
  {
    var l := RunOf(calls);
    OneMore(calls, x);
    hide RunOf;
    assert Past(l, g);
    var own := Own(l.slots, x.node, BINDING_CAPACITY);
    ElapsedAtMost(g.window, x.time);
    assert own.Some? && l.starts[own.value] == g.window;
    assert Live(l.slots, x.node, Reading32(x.time), own.value);
    GrantedIff(l.slots, x.node, Reading32(x.time));
  }

  /**
   * A call outside the node's windows is granted and starts one exactly when some slot is free,
   * its own, or another node's whose minute is over.
   */
  lemma FirstOfWindow(calls: seq<Call>, x: Call)
    requires InOrder(calls + [x]) && InOrder(calls)
    requires NoneLive(RunOf(calls).slots, x.node, Reading32(x.time))
    ensures RunOf(calls + [x]).grants ==
      if exists i: nat :: Open(RunOf(calls).slots, x.node, Reading32(x.time), i)
      then RunOf(calls).grants + [Grant(x.node, x.time, x.time)] else RunOf(calls).grants
  {
    OneMore(calls, x);
    hide RunOf, LogInv;
    GrantedIff(RunOf(calls).slots, x.node, Reading32(x.time));
  }

  lemma {:induction false} GrantsCalled(calls: seq<Call>, nodes: set<u64>)
    requires InOrder(calls) && (forall i | 0 <= i < |calls| :: calls[i].node in nodes)
    ensures forall g | g in RunOf(calls).grants :: g.node in nodes
  {
    if calls != [] {
      GrantsCalled(calls[..|calls| - 1], nodes);
    }
  }

  function Nodes(s: Slots, n: nat): set<u64>
    requires n <= BINDING_CAPACITY
  {
    set i | 0 <= i < n :: s[i].node
  }

  lemma {:induction false} AsManyNodes(s: Slots, n: nat)
    requires n <= BINDING_CAPACITY && OneSlotEach(s) && forall i | 0 <= i < n :: s[i].node != 0
    ensures |Nodes(s, n)| == n
  {
    if n != 0 {
      AsManyNodes(s, n - 1);
      assert Nodes(s, n) == Nodes(s, n - 1) + {s[n - 1].node};
    }
  }

  lemma {:induction false} SubsetSize(a: set<u64>, b: set<u64>)
    requires a <= b
    ensures |a| <= |b|
  {
    if x :| x in a {
      SubsetSize(a - {x}, b - {x});
    }
  }

  lemma NoRoom(s: Slots, nodes: set<u64>, node: u64, now: u32)
    requires OneSlotEach(s) && node in nodes && forall i: nat :: !Open(s, node, now, i)
    requires forall i | 0 <= i < BINDING_CAPACITY && s[i].node != 0 :: s[i].node in nodes
    ensures |nodes| > BINDING_CAPACITY
  {
    forall i | 0 <= i < BINDING_CAPACITY ensures s[i].node != 0 && s[i].node != node {
      assert !Open(s, node, now, i);
    }
    AsManyNodes(s, BINDING_CAPACITY);
    SubsetSize(Nodes(s, BINDING_CAPACITY), nodes - {node});
  }

  /** While no more nodes call than there are slots, each has one to start a window in. */
  lemma RoomForAll(calls: seq<Call>, nodes: set<u64>, node: u64, now: u32)
    requires InOrder(calls) && (forall i | 0 <= i < |calls| :: calls[i].node in nodes)
    requires node in nodes && |nodes| <= BINDING_CAPACITY
    ensures exists i: nat :: Open(RunOf(calls).slots, node, now, i)
  {
    var l := RunOf(calls);
    EveryLog(calls);
    GrantsCalled(calls, nodes);
    hide RunOf, GrantsInv, CountsInv;
    assert forall i | 0 <= i < BINDING_CAPACITY && l.slots[i].node != 0 ::
        Grant(l.slots[i].node, l.starts[i], l.starts[i]) in l.grants;
    if forall i: nat :: !Open(l.slots, node, now, i) {
      NoRoom(l.slots, nodes, node, now);
    }
  }

  /** The windows of one node start at least a minute apart. */
  lemma WindowsApart(calls: seq<Call>, g: Grant, h: Grant)
    requires InOrder(calls) && g in RunOf(calls).grants && h in RunOf(calls).grants
    requires g.node == h.node && g.window < h.window
    ensures g.window + WINDOW_MS <= h.window
  {
    EveryLog(calls);
  }
}
