/** The reference-counted, CAS-based free list of src/base/concurrentqueue.h (FreeList),
    as a state machine over any number of threads. Every step is one atomic operation of
    the source, taken in a sequentially consistent interleaving.

    `head`, `refs` and `next` are the fields the C++ code works on and `pc` is where each
    thread stands inside `add` / `try_get`. `place`, `list` and `log` are auxiliary: they
    record who is responsible for a node, the chain reachable from `head`, and the
    history of completed hand-overs. Only `add`'s duty to own its node reads them. */
module FreeList {
  import opened Common

  type Tid = nat
  type Node = nat

  datatype Link = Null | To(node: Node)

  /** Bit 31 of freeListRefs; the low 31 bits are the reference count (REFS_MASK). */
  const SHOULD_BE_ON_FREELIST: nat := 0x8000_0000

  /** What a thread does after add_knowing_refcount_is_zero returns: `add` is over, or
      `try_get` goes on with the head its failed CAS loaded. */
  datatype Then = Return | Continue(head: Link)

  datatype PC =
    | Idle
    | LoadHead                                        // try_get: about to load freeListHead
    | LoadRefs(h: Node)                               // about to load h->freeListRefs
    | CasRefs(h: Node, seen: nat)                     // about to CAS seen -> seen + 1
    | LoadNext(h: Node)                               // holds a reference; about to load h->freeListNext
    | CasHead(h: Node, nx: Link)                      // about to CAS head from h to nx
    | Won(h: Node)                                    // took h off the list; about to subtract 2
    | Lost(h: Node, now: Link)                        // CAS failed; about to subtract 1 from h
    | AddLoad(n: Node, k: Then)                       // add_knowing_refcount_is_zero: about to load head
    | AddNext(n: Node, seenHead: Link, k: Then)       // about to store n->freeListNext
    | AddRefs(n: Node, seenHead: Link, k: Then)       // about to store n->freeListRefs = 1
    | AddCas(n: Node, seenHead: Link, k: Then)        // about to CAS head from seenHead to n
    | AddFail(n: Node, seenHead: Link, k: Then)       // CAS failed; about to fetch_add(SHOULD - 1)

  /** Who is responsible for a node. */
  datatype Place =
    | Owned(owner: Tid)      // handed out: the only thread that may call add on it
    | Popped(owner: Tid)     // taken off the list, the two references not yet subtracted
    | OnList
    | Pending                // should be on the list; the last reference holder puts it there
    | Adding(adder: Tid)     // reference count zero, one thread prepares it
    | Linking(adder: Tid)    // count one again, the same thread is about to publish it

  datatype Event = Got(t: Tid, n: Node) | Added(t: Tid, n: Node)

  datatype State = State(
    head: Link,
    refs: map<Node, nat>,
    next: map<Node, Link>,
    pc: map<Tid, PC>,
    place: map<Node, Place>,
    list: seq<Node>,
    log: seq<Event>)

  // ---------------------------------------------------------------- the atomic steps

  datatype Action =
    | StartGet                  // try_get is called
    | StartAdd(n: Node)         // add(n): the fetch_add of SHOULD_BE_ON_FREELIST
    | GiveTo(n: Node, to: Tid)  // the owner passes an owned node to another thread
    | Proceed                   // the next atomic operation of the running call

  function Resume(k: Then): PC {
    match k
    case Return => Idle
    case Continue(Null) => Idle       // try_get's while loop ends: returns nullptr
    case Continue(To(h)) => LoadRefs(h)
  }

  ghost predicate Enabled(s: State, t: Tid, a: Action) {
    t in s.pc &&
    match a
    case StartGet => s.pc[t].Idle?
    case StartAdd(n) => s.pc[t].Idle? && n in s.place && s.place[n] == Owned(t)
    case GiveTo(n, to) => s.pc[t].Idle? && n in s.place && s.place[n] == Owned(t) && to in s.pc
    case Proceed => !s.pc[t].Idle?
  }

  ghost predicate Typed(s: State) {
    && s.refs.Keys == s.next.Keys == s.place.Keys
    && (s.head.To? ==> s.head.node in s.refs)
    && (forall t | t in s.pc :: Within(s.pc[t], s.refs.Keys))
    && (forall n | n in s.next :: s.next[n].To? ==> s.next[n].node in s.refs)
  }

  predicate LinkIn(l: Link, d: set<Node>) { l.To? ==> l.node in d }

  predicate ThenIn(k: Then, d: set<Node>) { k.Continue? ==> LinkIn(k.head, d) }

  /** Every node a thread knows is a node of the pool d. */
  predicate Within(p: PC, d: set<Node>) {
    match p
    case Idle => true
    case LoadHead => true
    case LoadRefs(h) => h in d
    case CasRefs(h, _) => h in d
    case LoadNext(h) => h in d
    case CasHead(h, nx) => h in d && LinkIn(nx, d)
    case Won(h) => h in d
    case Lost(h, now) => h in d && LinkIn(now, d)
    case AddLoad(n, k) => n in d && ThenIn(k, d)
    case AddNext(n, sh, k) => n in d && LinkIn(sh, d) && ThenIn(k, d)
    case AddRefs(n, sh, k) => n in d && LinkIn(sh, d) && ThenIn(k, d)
    case AddCas(n, sh, k) => n in d && LinkIn(sh, d) && ThenIn(k, d)
    case AddFail(n, sh, k) => n in d && LinkIn(sh, d) && ThenIn(k, d)
  }

  /** The node a thread is working on. */
  function Subject(p: PC): Link {
    if p.Idle? || p.LoadHead? then Null
    else if p.AddLoad? || p.AddNext? || p.AddRefs? || p.AddCas? || p.AddFail? then To(p.n)
    else To(p.h)
  }

  ghost function Apply(s: State, t: Tid, a: Action): State
    requires Typed(s) && Enabled(s, t, a)
  {
    match a
    case StartGet => s.(pc := s.pc[t := LoadHead])
    case StartAdd(n) =>
      var was := s.refs[n];
      s.(refs := s.refs[n := was + SHOULD_BE_ON_FREELIST],
         pc := s.pc[t := if was == 0 then AddLoad(n, Return) else Idle],
         place := s.place[n := if was == 0 then Adding(t) else Pending],
         log := s.log + [Added(t, n)])
    case GiveTo(n, to) => s.(place := s.place[n := Owned(to)])
    case Proceed => Run(s, t)
  }

  /** One atomic operation of the call thread t is in. */
  ghost function Run(s: State, t: Tid): State
    requires Typed(s) && t in s.pc && !s.pc[t].Idle?
  {
    match s.pc[t]
    case LoadHead => s.(pc := s.pc[t := Resume(Continue(s.head))])
    case LoadRefs(h) =>
      s.(pc := s.pc[t := if s.refs[h] % SHOULD_BE_ON_FREELIST == 0 then LoadHead else CasRefs(h, s.refs[h])])
    case CasRefs(h, seen) =>
      if s.refs[h] == seen then
        s.(refs := s.refs[h := seen + 1], pc := s.pc[t := LoadNext(h)])
      else
        s.(pc := s.pc[t := LoadHead])
    case LoadNext(h) => s.(pc := s.pc[t := CasHead(h, s.next[h])])
    case CasHead(h, nx) =>
      if s.head == To(h) then
        s.(head := nx, pc := s.pc[t := Won(h)], place := s.place[h := Popped(t)],
           list := if |s.list| > 0 then s.list[1..] else [],
           log := s.log + [Got(t, h)])
      else
        s.(pc := s.pc[t := Lost(h, s.head)])
    case Won(h) =>
      s.(refs := s.refs[h := Sub(s.refs[h], 2)], pc := s.pc[t := Idle], place := s.place[h := Owned(t)])
    case Lost(h, now) =>
      var was := s.refs[h];
      if was == SHOULD_BE_ON_FREELIST + 1 then
        s.(refs := s.refs[h := Sub(was, 1)], pc := s.pc[t := AddLoad(h, Continue(now))],
           place := s.place[h := Adding(t)])
      else
        s.(refs := s.refs[h := Sub(was, 1)], pc := s.pc[t := Resume(Continue(now))])
    case AddLoad(n, k) => s.(pc := s.pc[t := AddNext(n, s.head, k)])
    case AddNext(n, sh, k) => s.(next := s.next[n := sh], pc := s.pc[t := AddRefs(n, sh, k)])
    case AddRefs(n, sh, k) =>
      s.(refs := s.refs[n := 1], pc := s.pc[t := AddCas(n, sh, k)], place := s.place[n := Linking(t)])
    case AddCas(n, sh, k) =>
      if s.head == sh then
        s.(head := To(n), pc := s.pc[t := Resume(k)], place := s.place[n := OnList], list := [n] + s.list)
      else
        s.(pc := s.pc[t := AddFail(n, s.head, k)])
    case AddFail(n, sh, k) =>
      var was := s.refs[n];
      s.(refs := s.refs[n := was + (SHOULD_BE_ON_FREELIST - 1)],
         pc := s.pc[t := if was == 1 then AddNext(n, sh, k) else Resume(k)],
         place := s.place[n := if was == 1 then Adding(t) else Pending])
  }

  /** fetch_sub on the 32-bit counter, which would wrap below zero. */
  function Sub(x: nat, d: nat): nat
    requires d <= 2
  {
    if x >= d then x - d else x + 0x1_0000_0000 - d
  }

  // ---------------------------------------------------------------- runs

  ghost predicate Init(s: State) {
    && Typed(s)
    && s.head == Null && s.list == [] && s.log == []
    && (forall t | t in s.pc :: s.pc[t].Idle?)
    && (forall n | n in s.refs :: s.refs[n] == 0 && s.place[n].Owned? && s.place[n].owner in s.pc)
    && |s.pc| < SHOULD_BE_ON_FREELIST - 1   // each reference belongs to a thread
  }

  ghost predicate Next(s: State, s': State) {
    exists t, a :: Typed(s) && Enabled(s, t, a) && s' == Apply(s, t, a)
  }

  ghost predicate IsRun(run: seq<State>) {
    && |run| > 0 && Init(run[0])
    && forall i | 0 <= i < |run| - 1 :: Next(run[i], run[i + 1])
  }

  // ---------------------------------------------------------------- the invariant

  /** The node on which a thread holds a counted reference. */
  predicate Holds(p: PC, n: Node) {
    match p
    case LoadNext(h) => h == n
    case CasHead(h, _) => h == n
    case Won(h) => h == n
    case Lost(h, _) => h == n
    case _ => false
  }

  ghost function Holders(pc: map<Tid, PC>, n: Node): set<Tid> {
    set t | t in pc && Holds(pc[t], n)
  }

  predicate ListRef(p: Place) { p.OnList? || p.Popped? || p.Linking? }
  predicate Flagged(p: Place) { p.Pending? || p.Adding? }

  ghost function Count(s: State, n: Node): nat
    requires n in s.place
  {
    |Holders(s.pc, n)| + (if ListRef(s.place[n]) then 1 else 0)
  }

  ghost predicate RefsOk(s: State, n: Node)
    requires Typed(s) && n in s.refs
  {
    s.refs[n] == Count(s, n) + (if Flagged(s.place[n]) then SHOULD_BE_ON_FREELIST else 0)
  }

  /** What a thread's position says about the node it works on. */
  ghost predicate ThreadOk(s: State, t: Tid)
    requires Typed(s) && t in s.pc
  {
    match s.pc[t]
    case CasRefs(h, seen) => seen % SHOULD_BE_ON_FREELIST != 0
    case CasHead(h, nx) => s.next[h] == nx
    case Won(h) => s.place[h] == Popped(t)
    case AddLoad(n, _) => s.place[n] == Adding(t)
    case AddNext(n, _, _) => s.place[n] == Adding(t)
    case AddRefs(n, sh, _) => s.place[n] == Adding(t) && s.next[n] == sh
    case AddCas(n, sh, _) => s.place[n] == Linking(t) && s.next[n] == sh
    case AddFail(n, _, _) => s.place[n] == Linking(t)
    case _ => true
  }

  /** What a node's place says about the threads. */
  ghost predicate PlaceOk(s: State, n: Node)
    requires Typed(s) && n in s.place
  {
    match s.place[n]
    case Owned(t) => t in s.pc
    case Popped(t) => t in s.pc && s.pc[t] == Won(n)
    case OnList => true
    case Pending => Holders(s.pc, n) != {}
    case Adding(t) => t in s.pc && Holders(s.pc, n) == {} &&
      (s.pc[t].AddLoad? || s.pc[t].AddNext? || s.pc[t].AddRefs?) && s.pc[t].n == n
    case Linking(t) => t in s.pc && (s.pc[t].AddCas? || s.pc[t].AddFail?) && s.pc[t].n == n
  }

  /** Following next from l visits exactly the nodes of list, in order and once each. */
  ghost predicate Chain(l: Link, list: seq<Node>, next: map<Node, Link>)
    decreases |list|
  {
    if list == [] then l == Null
    else
      && l == To(list[0]) && list[0] in next && list[0] !in list[1..]
      && Chain(next[list[0]], list[1..], next)
  }

  ghost predicate ListOk(s: State) {
    && Chain(s.head, s.list, s.next)
    && (forall n | n in s.place :: n in s.list <==> s.place[n].OnList?)
  }

  /** The history says who holds a node: the one who got it last and has not added it since. */
  ghost predicate Out(log: seq<Event>, n: Node) {
    |log| == 0 || (var e := log[|log| - 1]; if e.n == n then e.Got? else Out(log[..|log| - 1], n))
  }

  /** A node is got only while nobody holds it and added only while somebody does. */
  ghost predicate Alternates(log: seq<Event>) {
    forall j | 0 <= j < |log| :: Out(log[..j], log[j].n) <==> log[j].Added?
  }

  ghost predicate LogOk(s: State) {
    && Alternates(s.log)
    && (forall n | n in s.place :: Out(s.log, n) <==> (s.place[n].Owned? || s.place[n].Popped?))
  }

  ghost predicate Inv(s: State) {
    && Typed(s)
    && |s.pc| < SHOULD_BE_ON_FREELIST - 1
    && (forall n | n in s.refs :: RefsOk(s, n))
    && (forall t | t in s.pc :: ThreadOk(s, t))
    && (forall n | n in s.place :: PlaceOk(s, n))
    && ListOk(s)
    && LogOk(s)
  }

  // ---------------------------------------------------------------- counting references

  lemma HoldersSame(pc: map<Tid, PC>, pc': map<Tid, PC>, t: Tid, n: Node)
    requires SameBut(pc, pc', t) && (Holds(pc[t], n) <==> Holds(pc'[t], n))
    ensures Holders(pc', n) == Holders(pc, n)
  {
  }

  lemma HoldersGain(pc: map<Tid, PC>, pc': map<Tid, PC>, t: Tid, n: Node)
    requires SameBut(pc, pc', t) && !Holds(pc[t], n) && Holds(pc'[t], n)
    ensures |Holders(pc', n)| == |Holders(pc, n)| + 1 && t in Holders(pc', n)
  {
    assert t !in Holders(pc, n);
    assert Holders(pc', n) == Holders(pc, n) + {t};
  }

  lemma HoldersLose(pc: map<Tid, PC>, pc': map<Tid, PC>, t: Tid, n: Node)
    requires SameBut(pc, pc', t) && Holds(pc[t], n) && !Holds(pc'[t], n)
    ensures |Holders(pc', n)| == |Holders(pc, n)| - 1 && t in Holders(pc, n)
  {
    assert t in Holders(pc, n);
    assert Holders(pc', n) == Holders(pc, n) - {t};
  }

  lemma HoldersBound(pc: map<Tid, PC>, n: Node)
    ensures |Holders(pc, n)| <= |pc|
  {
    SubsetSize(Holders(pc, n), pc.Keys);
  }

  /** m' differs from m at key k at most. */
  ghost predicate SameBut<V>(m: map<nat, V>, m': map<nat, V>, k: nat) {
    k in m && m'.Keys == m.Keys && forall i | i in m && i != k :: m'[i] == m[i]
  }

  /** Thread t moved, and of the nodes only h changed. */
  ghost predicate Local(s: State, s': State, t: Tid, h: Node) {
    && SameBut(s.pc, s'.pc, t) && SameBut(s.refs, s'.refs, h)
    && SameBut(s.place, s'.place, h) && SameBut(s.next, s'.next, h)
  }

  /** The invariant as seen from one thread and one node it works on. */
  lemma InvAt(s: State, t: Tid, h: Node)
    requires Inv(s) && t in s.pc && Subject(s.pc[t]) == To(h)
    ensures Typed(s) && |s.pc| < SHOULD_BE_ON_FREELIST - 1 && ListOk(s) && LogOk(s)
    ensures h in s.refs && RefsOk(s, h) && PlaceOk(s, h) && ThreadOk(s, t)
    ensures s.refs.Keys == s.place.Keys == s.next.Keys && Within(s.pc[t], s.refs.Keys)
    ensures LinkIn(s.head, s.refs.Keys) && LinkIn(s.next[h], s.refs.Keys)
  {
  }

  lemma InvNode(s: State, m: Node)
    requires Inv(s) && (m in s.refs || m in s.place)
    ensures Typed(s) && m in s.refs && RefsOk(s, m) && PlaceOk(s, m)
    ensures s.refs.Keys == s.place.Keys == s.next.Keys
    ensures LinkIn(s.head, s.refs.Keys) && LinkIn(s.next[m], s.refs.Keys)
  {
  }

  lemma InvThread(s: State, u: Tid)
    requires Inv(s) && u in s.pc
    ensures Typed(s) && ThreadOk(s, u) && Within(s.pc[u], s.refs.Keys)
  {
  }

  lemma LocalTyped(s: State, s': State, t: Tid, h: Node)
    requires Typed(s) && Local(s, s', t, h)
    requires Within(s'.pc[t], s.refs.Keys)
    requires LinkIn(s'.next[h], s.refs.Keys) && LinkIn(s'.head, s.refs.Keys)
    ensures Typed(s')
  {
  }

  predicate HoldsOnly(p: PC, h: Node) {
    p.LoadNext? || p.CasHead? || p.Won? || p.Lost? ==> p.h == h
  }

  predicate WorksOnly(p: PC, h: Node) {
    p.AddLoad? || p.AddNext? || p.AddRefs? || p.AddCas? || p.AddFail? ==> p.n == h
  }

  /** A move of thread t that does not concern node m keeps m's count and duty. */
  lemma OtherNode(s: State, s': State, t: Tid, m: Node)
    requires Typed(s) && Typed(s') && SameBut(s.pc, s'.pc, t)
    requires m in s.place && m in s'.place
    requires !Holds(s.pc[t], m) && !Holds(s'.pc[t], m)
    requires s'.refs[m] == s.refs[m] && s'.place[m] == s.place[m]
    requires RefsOk(s, m) && PlaceOk(s, m)
    requires s.place[m].Adding? || s.place[m].Linking? ==> s.place[m].adder != t
    requires s.place[m].Popped? ==> s.place[m].owner != t
    ensures RefsOk(s', m) && PlaceOk(s', m)
  {
    HoldersSame(s.pc, s'.pc, t, m);
  }

  /** The step may re-place node h only on behalf of t, and may write its next pointer only
      while t prepares it with a zero count. */
  predicate Authorised(t: Tid, from: Place, to: Place) {
    to == from || from.Owned? || from.OnList? || from.Pending?
    || from == Popped(t) || from == Adding(t) || from == Linking(t)
  }

  /** Such a step keeps what every other thread relies on. */
  lemma OtherThread(s: State, s': State, t: Tid, h: Node, u: Tid)
    requires Typed(s) && Typed(s') && u in s.pc && u in s'.pc && u != t && s'.pc[u] == s.pc[u]
    requires h in s.place && PlaceOk(s, h) && ThreadOk(s, u)
    requires SameBut(s.place, s'.place, h) && SameBut(s.next, s'.next, h)
    requires Authorised(t, s.place[h], s'.place[h])
    requires s'.next[h] == s.next[h] || s.place[h] == Adding(t)
    ensures ThreadOk(s', u)
  {
    if s.pc[u].CasHead? && s.pc[u].h == h {
      assert u in Holders(s.pc, h);
    }
  }

  /** Everything but the moved thread, its node, the list and the log follows from the frame. */
  lemma LocalInv(s: State, t: Tid, h: Node, s': State)
    requires Inv(s) && Local(s, s', t, h)
    requires HoldsOnly(s.pc[t], h) && HoldsOnly(s'.pc[t], h) && WorksOnly(s.pc[t], h)
    requires Authorised(t, s.place[h], s'.place[h]) && (s'.next[h] == s.next[h] || s.place[h] == Adding(t))
    requires Typed(s') && RefsOk(s', h) && PlaceOk(s', h) && ThreadOk(s', t) && ListOk(s') && LogOk(s')
    ensures Inv(s')
  {
    hide Inv;
    InvThread(s, t);
    forall m | m in s'.refs
      ensures RefsOk(s', m) && PlaceOk(s', m)
    {
      if m != h {
        InvNode(s, m);
        OtherNode(s, s', t, m);
      }
    }
    forall u | u in s'.pc
      ensures ThreadOk(s', u)
    {
      if u != t {
        InvThread(s, u);
        InvNode(s, h);
        OtherThread(s, s', t, h, u);
      }
    }
    Assemble(s, s');
  }

  lemma Assemble(s: State, s': State)
    requires Inv(s) && Typed(s') && s'.pc.Keys == s.pc.Keys
    requires forall m | m in s'.refs :: RefsOk(s', m) && PlaceOk(s', m)
    requires forall u | u in s'.pc :: ThreadOk(s', u)
    requires ListOk(s') && LogOk(s')
    ensures Inv(s')
  {
    assert |s'.pc| == |s'.pc.Keys| == |s.pc.Keys| == |s.pc|;
  }

  // ---------------------------------------------------------------- every step keeps the invariant

  predicate Free(p: PC) { p.Idle? || p.LoadHead? || p.LoadRefs? || p.CasRefs? }

  lemma TypedMove(s: State, t: Tid, p: PC)
    requires Typed(s) && t in s.pc && Within(p, s.refs.Keys)
    ensures Typed(s.(pc := s.pc[t := p]))
  {
  }

  /** A thread that holds nothing may move to another point where it holds nothing. */
  lemma FreeMove(s: State, t: Tid, p: PC)
    requires Inv(s) && t in s.pc && Free(s.pc[t]) && Free(p) && Within(p, s.refs.Keys)
    requires p.CasRefs? ==> p.seen % SHOULD_BE_ON_FREELIST != 0
    ensures Inv(s.(pc := s.pc[t := p]))
  {
    hide Inv;
    var s' := s.(pc := s.pc[t := p]);
    InvGlobal(s);
    TypedMove(s, t, p);
    forall m | m in s'.refs
      ensures RefsOk(s', m) && PlaceOk(s', m)
    {
      InvNode(s, m);
      OtherNode(s, s', t, m);
    }
    forall u | u in s'.pc
      ensures ThreadOk(s', u)
    {
      if u != t { InvThread(s, u); }
    }
    Assemble(s, s');
  }

  lemma InvGlobal(s: State)
    requires Inv(s)
    ensures Typed(s) && |s.pc| < SHOULD_BE_ON_FREELIST - 1 && ListOk(s) && LogOk(s)
  {
  }

  /** The list and the history do not depend on the counters or on where threads stand. */
  lemma ListLogFrame(s: State, s': State)
    requires ListOk(s) && LogOk(s)
    requires s'.head == s.head && s'.list == s.list && s'.next == s.next && s'.log == s.log
    requires s'.place.Keys == s.place.Keys
    requires forall n | n in s.place ::
      && (s'.place[n].OnList? <==> s.place[n].OnList?)
      && (s'.place[n].Owned? || s'.place[n].Popped? <==> s.place[n].Owned? || s.place[n].Popped?)
    ensures ListOk(s') && LogOk(s')
  {
  }

  /** The low 31 bits of the counter are the reference count. */
  lemma Mask(s: State, h: Node)
    requires Typed(s) && h in s.refs && RefsOk(s, h) && |s.pc| < SHOULD_BE_ON_FREELIST - 1
    ensures s.refs[h] % SHOULD_BE_ON_FREELIST == Count(s, h)
    ensures Count(s, h) < SHOULD_BE_ON_FREELIST
  {
    HoldersBound(s.pc, h);
    hide Holders, Flagged, ListRef;
    FlagOff(s.refs[h], Count(s, h));
  }

  lemma FlagOff(x: nat, count: nat)
    requires count < SHOULD_BE_ON_FREELIST && (x == count || x == count + SHOULD_BE_ON_FREELIST)
    ensures x % SHOULD_BE_ON_FREELIST == count
  {
  }

  lemma RefStep(s: State, t: Tid)
    requires Inv(s) && t in s.pc && s.pc[t].CasRefs?
    ensures Inv(Run(s, t))
  {
    hide Inv, Typed, Holders, ListOk, LogOk, Chain, Out;
    var h := s.pc[t].h;
    InvAt(s, t, h);
    var s' := Run(s, t);
    if s.refs[h] == s.pc[t].seen {
      Mask(s, h);
      assert !s.place[h].Adding?;   // the count is not zero
      HoldersGain(s.pc, s'.pc, t, h);
      LocalTyped(s, s', t, h);
      ListLogFrame(s, s');
      LocalInv(s, t, h, s');
    } else {
      FreeMove(s, t, LoadHead);
    }
  }

  lemma NextStep(s: State, t: Tid)
    requires Inv(s) && t in s.pc && s.pc[t].LoadNext?
    ensures Inv(Run(s, t))
  {
    hide Inv, Typed, Holders, ListOk, LogOk, Chain, Out;
    var h := s.pc[t].h;
    InvAt(s, t, h);
    var s' := Run(s, t);
    HoldersSame(s.pc, s'.pc, t, h);
    LocalTyped(s, s', t, h);
    ListLogFrame(s, s');
    LocalInv(s, t, h, s');
  }

  /** The head is the first node of the list. */
  lemma HeadOnList(s: State)
    requires ListOk(s) && Typed(s) && s.head.To?
    ensures s.list != [] && s.list[0] == s.head.node && s.place[s.head.node].OnList?
    ensures s.next[s.head.node].To? ==> s.next[s.head.node].node in s.refs
  {
    assert s.list[0] in s.list;
  }

  lemma PopList(s: State, s': State, h: Node)
    requires ListOk(s) && s.list != [] && s.list[0] == h && h in s.next && h in s.place
    requires s'.list == s.list[1..] && s'.head == s.next[h] && s'.next == s.next
    requires SameBut(s.place, s'.place, h) && !s'.place[h].OnList?
    ensures ListOk(s')
  {
    forall n | n in s'.place
      ensures n in s'.list <==> s'.place[n].OnList?
    {
      assert n != h && n in s.list ==> n in s.list[1..];
    }
  }

  /** One more hand-over of node h, matching its new place. */
  lemma LogGrows(s: State, s': State, h: Node, e: Event)
    requires LogOk(s) && e.n == h && s'.log == s.log + [e] && SameBut(s.place, s'.place, h)
    requires e.Got? <==> (s'.place[h].Owned? || s'.place[h].Popped?)
    requires e.Added? <==> (s.place[h].Owned? || s.place[h].Popped?)
    ensures LogOk(s')
  {
    assert s'.log[..|s.log|] == s.log;
    forall j | 0 <= j < |s'.log|
      ensures Out(s'.log[..j], s'.log[j].n) <==> s'.log[j].Added?
    {
      if j < |s.log| { assert s'.log[..j] == s.log[..j]; }
    }
  }

  /** The pop: the next pointer read under the reference is still the node's successor. */
  lemma PopStep(s: State, t: Tid)
    requires Inv(s) && t in s.pc && s.pc[t].CasHead? && s.head == To(s.pc[t].h)
    ensures Inv(Run(s, t))
  {
    hide Inv, Typed, Holders, ListOk, LogOk, Chain, Out;
    var h := s.pc[t].h;
    InvAt(s, t, h);
    HeadOnList(s);
    var s' := Run(s, t);
    HoldersSame(s.pc, s'.pc, t, h);
    LocalTyped(s, s', t, h);
    PopList(s, s', h);
    LogGrows(s, s', h, Got(t, h));
    LocalInv(s, t, h, s');
  }

  lemma MissStep(s: State, t: Tid)
    requires Inv(s) && t in s.pc && s.pc[t].CasHead? && s.head != To(s.pc[t].h)
    ensures Inv(Run(s, t))
  {
    hide Inv, Typed, Holders, ListOk, LogOk, Chain, Out;
    var h := s.pc[t].h;
    InvAt(s, t, h);
    var s' := Run(s, t);
    HoldersSame(s.pc, s'.pc, t, h);
    LocalTyped(s, s', t, h);
    ListLogFrame(s, s');
    LocalInv(s, t, h, s');
  }

  lemma WonStep(s: State, t: Tid)
    requires Inv(s) && t in s.pc && s.pc[t].Won?
    ensures Inv(Run(s, t))
  {
    hide Inv, Typed, Holders, ListOk, LogOk, Chain, Out;
    var h := s.pc[t].h;
    InvAt(s, t, h);
    var s' := Run(s, t);
    HoldersLose(s.pc, s'.pc, t, h);
    LocalTyped(s, s', t, h);
    ListLogFrame(s, s');
    LocalInv(s, t, h, s');
  }

  lemma LostStep(s: State, t: Tid)
    requires Inv(s) && t in s.pc && s.pc[t].Lost?
    ensures Inv(Run(s, t))
  {
    hide Inv, Typed, Holders, ListOk, LogOk, Chain, Out;
    var h := s.pc[t].h;
    InvAt(s, t, h);
    var s' := Run(s, t);
    HoldersLose(s.pc, s'.pc, t, h);
    HoldersBound(s.pc, h);
    assert s.refs[h] == SHOULD_BE_ON_FREELIST + 1 ==> s.place[h].Pending? && Holders(s'.pc, h) == {};
    assert s.place[h].Pending? && s.refs[h] != SHOULD_BE_ON_FREELIST + 1 ==> Holders(s'.pc, h) != {};
    LocalTyped(s, s', t, h);
    ListLogFrame(s, s');
    LocalInv(s, t, h, s');
  }

  lemma AddLoadStep(s: State, t: Tid)
    requires Inv(s) && t in s.pc && s.pc[t].AddLoad?
    ensures Inv(Run(s, t))
  {
    hide Inv, Typed, Holders, ListOk, LogOk, Chain, Out;
    var n := s.pc[t].n;
    InvAt(s, t, n);
    var s' := Run(s, t);
    HoldersSame(s.pc, s'.pc, t, n);
    LocalTyped(s, s', t, n);
    ListLogFrame(s, s');
    LocalInv(s, t, n, s');
  }

  /** A chain does not see a change of a node that is not on it. */
  lemma {:induction false} ChainFrame(l: Link, list: seq<Node>, next: map<Node, Link>, next': map<Node, Link>, h: Node)
    requires Chain(l, list, next) && h !in list && SameBut(next, next', h)
    ensures Chain(l, list, next')
    decreases |list|
  {
    if list != [] {
      ChainFrame(next[list[0]], list[1..], next, next', h);
    }
  }

  lemma AddNextStep(s: State, t: Tid)
    requires Inv(s) && t in s.pc && s.pc[t].AddNext?
    ensures Inv(Run(s, t))
  {
    hide Inv, Typed, Holders, Chain, Out;
    var n := s.pc[t].n;
    InvAt(s, t, n);
    var s' := Run(s, t);
    HoldersSame(s.pc, s'.pc, t, n);
    LocalTyped(s, s', t, n);
    ChainFrame(s.head, s.list, s.next, s'.next, n);
    LocalInv(s, t, n, s');
  }

  lemma AddRefsStep(s: State, t: Tid)
    requires Inv(s) && t in s.pc && s.pc[t].AddRefs?
    ensures Inv(Run(s, t))
  {
    hide Inv, Typed, Holders, ListOk, LogOk, Chain, Out;
    var n := s.pc[t].n;
    InvAt(s, t, n);
    var s' := Run(s, t);
    HoldersSame(s.pc, s'.pc, t, n);
    LocalTyped(s, s', t, n);
    ListLogFrame(s, s');
    LocalInv(s, t, n, s');
  }

  lemma PushList(s: State, s': State, n: Node)
    requires ListOk(s) && n in s.next && n in s.place && !s.place[n].OnList? && s.next[n] == s.head
    requires s'.list == [n] + s.list && s'.head == To(n) && s'.next == s.next
    requires SameBut(s.place, s'.place, n) && s'.place[n].OnList?
    ensures ListOk(s')
  {
    assert s'.list[1..] == s.list;
  }

  lemma PushStep(s: State, t: Tid)
    requires Inv(s) && t in s.pc && s.pc[t].AddCas? && s.head == s.pc[t].seenHead
    ensures Inv(Run(s, t))
  {
    hide Inv, Typed, Holders, ListOk, Chain, Out;
    var n := s.pc[t].n;
    InvAt(s, t, n);
    var s' := Run(s, t);
    HoldersSame(s.pc, s'.pc, t, n);
    LocalTyped(s, s', t, n);
    PushList(s, s', n);
    LocalInv(s, t, n, s');
  }

  lemma AddMissStep(s: State, t: Tid)
    requires Inv(s) && t in s.pc && s.pc[t].AddCas? && s.head != s.pc[t].seenHead
    ensures Inv(Run(s, t))
  {
    hide Inv, Typed, Holders, ListOk, LogOk, Chain, Out;
    var n := s.pc[t].n;
    InvAt(s, t, n);
    var s' := Run(s, t);
    HoldersSame(s.pc, s'.pc, t, n);
    LocalTyped(s, s', t, n);
    ListLogFrame(s, s');
    LocalInv(s, t, n, s');
  }

  lemma AddFailStep(s: State, t: Tid)
    requires Inv(s) && t in s.pc && s.pc[t].AddFail?
    ensures Inv(Run(s, t))
  {
    hide Inv, Typed, Holders, ListOk, LogOk, Chain, Out;
    var n := s.pc[t].n;
    InvAt(s, t, n);
    var s' := Run(s, t);
    HoldersSame(s.pc, s'.pc, t, n);
    HoldersBound(s.pc, n);
    LocalTyped(s, s', t, n);
    ListLogFrame(s, s');
    LocalInv(s, t, n, s');
  }

  lemma StartAddStep(s: State, t: Tid, n: Node)
    requires Inv(s) && Typed(s) && Enabled(s, t, StartAdd(n))
    ensures Inv(Apply(s, t, StartAdd(n)))
  {
    hide Inv, Typed, Holders, ListOk, LogOk, Chain, Out;
    InvNode(s, n);
    InvGlobal(s);
    var s' := Apply(s, t, StartAdd(n));
    HoldersSame(s.pc, s'.pc, t, n);
    HoldersBound(s.pc, n);
    LocalTyped(s, s', t, n);
    SameList(s, s', n);
    LogGrows(s, s', n, Added(t, n));
    LocalInv(s, t, n, s');
  }

  lemma SameList(s: State, s': State, n: Node)
    requires ListOk(s) && s'.head == s.head && s'.list == s.list && s'.next == s.next
    requires SameBut(s.place, s'.place, n) && (s.place[n].OnList? <==> s'.place[n].OnList?)
    ensures ListOk(s')
  {
  }

  lemma GiveStep(s: State, t: Tid, n: Node, to: Tid)
    requires Inv(s) && Typed(s) && Enabled(s, t, GiveTo(n, to))
    ensures Inv(Apply(s, t, GiveTo(n, to)))
  {
    hide Inv, Typed, Holders, ListOk, LogOk, Chain, Out;
    InvNode(s, n);
    InvGlobal(s);
    var s' := Apply(s, t, GiveTo(n, to));
    LocalTyped(s, s', t, n);
    ListLogFrame(s, s');
    LocalInv(s, t, n, s');
  }

  lemma RunStep(s: State, t: Tid)
    requires Inv(s) && t in s.pc && !s.pc[t].Idle?
    ensures Inv(Run(s, t))
  {
    hide Holders, ListOk, LogOk, Chain, Out, ThreadOk, PlaceOk, RefsOk;
    match s.pc[t]
    case LoadHead => FreeMove(s, t, Resume(Continue(s.head)));
    case LoadRefs(h) =>
      FreeMove(s, t, if s.refs[h] % SHOULD_BE_ON_FREELIST == 0 then LoadHead else CasRefs(h, s.refs[h]));
    case CasRefs(_, _) => RefStep(s, t);
    case LoadNext(_) => NextStep(s, t);
    case CasHead(h, _) => if s.head == To(h) { PopStep(s, t); } else { MissStep(s, t); }
    case Won(_) => WonStep(s, t);
    case Lost(_, _) => LostStep(s, t);
    case AddLoad(_, _) => AddLoadStep(s, t);
    case AddNext(_, _, _) => AddNextStep(s, t);
    case AddRefs(_, _, _) => AddRefsStep(s, t);
    case AddCas(_, sh, _) => if s.head == sh { PushStep(s, t); } else { AddMissStep(s, t); }
    case AddFail(_, _, _) => AddFailStep(s, t);
  }

  /** Every atomic step of every thread keeps the invariant. */
  lemma StepKeepsInv(s: State, t: Tid, a: Action)
    requires Inv(s) && Typed(s) && Enabled(s, t, a)
    ensures Inv(Apply(s, t, a))
  {
    hide Inv, Typed, Run;
    match a
    case StartGet => StartGetStep(s, t);
    case StartAdd(n) => StartAddStep(s, t, n);
    case GiveTo(n, to) => GiveStep(s, t, n, to);
    case Proceed => RunStep(s, t);
  }

  lemma StartGetStep(s: State, t: Tid)
    requires Inv(s) && t in s.pc && s.pc[t].Idle?
    ensures Inv(s.(pc := s.pc[t := LoadHead]))
  {
    hide Inv;
    InvGlobal(s);
    FreeMove(s, t, LoadHead);
  }

  lemma InitInv(s: State)
    requires Init(s)
    ensures Inv(s)
  {
    forall n | n in s.refs
      ensures RefsOk(s, n) && PlaceOk(s, n)
    {
      assert Holders(s.pc, n) == {};
    }
  }

  /** In every state of every interleaving the invariant holds. */
  lemma {:induction false} RunInv(run: seq<State>, i: nat)
    requires IsRun(run) && i < |run|
    ensures Inv(run[i])
  {
    hide Inv, Typed, Enabled, Apply, Init;
    if i == 0 {
      InitInv(run[0]);
    } else {
      RunInv(run, i - 1);
      assert Next(run[i - 1], run[i - 1 + 1]);
      var t, a :| Typed(run[i - 1]) && Enabled(run[i - 1], t, a) && run[i] == Apply(run[i - 1], t, a);
      StepKeepsInv(run[i - 1], t, a);
    }
  }

  // ---------------------------------------------------------------- main results

  /** No node is handed out twice without being added in between. */
  lemma NoDoubleGet(run: seq<State>, m: nat, i: nat, j: nat)
    requires IsRun(run) && m < |run|
    requires i < j < |run[m].log| && run[m].log[i].Got? && run[m].log[j].Got? && run[m].log[i].n == run[m].log[j].n
    ensures exists k :: i < k < j && run[m].log[k].Added? && run[m].log[k].n == run[m].log[j].n
  {
    RunInv(run, m);
    var log := run[m].log;
    InvGlobal(run[m]);
    assert !Out(log[..j], log[j].n);
    AddedBetween(log, i, j, log[j].n);
  }

  lemma {:induction false} AddedBetween(log: seq<Event>, i: nat, j: nat, n: Node)
    requires i < j <= |log| && log[i].Got? && log[i].n == n && !Out(log[..j], n)
    ensures exists k :: i < k < j && log[k].Added? && log[k].n == n
  {
    assert log[..j][..j - 1] == log[..j - 1] && log[..j][j - 1] == log[j - 1];
    if log[j - 1].n == n {
      assert log[j - 1].Added?;
    } else {
      AddedBetween(log, i, j - 1, n);
    }
  }

  /** While a thread holds a reference to a node, no step of any thread changes the node's
      next pointer. */
  lemma NextIsStable(run: seq<State>, i: nat, u: Tid, n: Node)
    requires IsRun(run) && i + 1 < |run| && u in run[i].pc && Holds(run[i].pc[u], n)
    ensures n in run[i].next && n in run[i + 1].next && run[i + 1].next[n] == run[i].next[n]
  {
    RunInv(run, i);
    var s := run[i];
    assert Next(s, run[i + 1]);
    var t, a :| Typed(s) && Enabled(s, t, a) && run[i + 1] == Apply(s, t, a);
    StepKeepsNext(s, t, a, u, n);
  }

  lemma StepKeepsNext(s: State, t: Tid, a: Action, u: Tid, n: Node)
    requires Inv(s) && Typed(s) && Enabled(s, t, a) && u in s.pc && Holds(s.pc[u], n)
    ensures n in s.next && n in Apply(s, t, a).next && Apply(s, t, a).next[n] == s.next[n]
  {
    hide Inv, ListOk, LogOk, Chain, Out;
    InvThread(s, u);
    InvNode(s, n);
    if a.Proceed? && s.pc[t].AddNext? && s.pc[t].n == n {
      InvThread(s, t);
      assert u in Holders(s.pc, n);   // yet a node being prepared has no holders
    }
  }

  /** Hence no ABA: whenever a thread's CAS on the head can succeed, the value it installs is
      the true remainder of the list, and the popped node is not marked for the list. */
  lemma PopIsSound(run: seq<State>, i: nat, t: Tid)
    requires IsRun(run) && i < |run| && t in run[i].pc
    requires run[i].pc[t].CasHead? && run[i].head == To(run[i].pc[t].h)
    ensures var s := run[i];
      && s.list != [] && s.list[0] == s.pc[t].h
      && Chain(s.pc[t].nx, s.list[1..], s.next)
      && s.pc[t].h in s.refs && s.refs[s.pc[t].h] < SHOULD_BE_ON_FREELIST
  {
    RunInv(run, i);
    hide Inv;
    var s := run[i];
    var h := s.pc[t].h;
    InvAt(s, t, h);
    HeadOnList(s);
    HoldersBound(s.pc, h);
  }

  /** Nothing is lost: once every call has returned, each node is either owned or on the
      list, with a counter that shows exactly that. */
  lemma QuiescentNodes(run: seq<State>, i: nat, n: Node)
    requires IsRun(run) && i < |run| && n in run[i].refs
    requires forall t | t in run[i].pc :: run[i].pc[t].Idle?
    ensures n in run[i].place
    ensures || (run[i].place[n].Owned? && run[i].refs[n] == 0 && n !in run[i].list)
            || (run[i].place[n].OnList? && run[i].refs[n] == 1 && n in run[i].list)
  {
    RunInv(run, i);
    hide Inv, Chain, Out;
    var s := run[i];
    InvNode(s, n);
    InvGlobal(s);
    assert Holders(s.pc, n) == {};
  }

  // ---------------------------------------------------------------- what a call returns

  /** Inside try_get, before a node was won. */
  predicate InGet(p: PC) {
    match p
    case LoadHead => true
    case LoadRefs(_) => true
    case CasRefs(_, _) => true
    case LoadNext(_) => true
    case CasHead(_, _) => true
    case Lost(_, _) => true
    case AddLoad(_, k) => k.Continue?
    case AddNext(_, _, k) => k.Continue?
    case AddRefs(_, _, k) => k.Continue?
    case AddCas(_, _, k) => k.Continue?
    case AddFail(_, _, k) => k.Continue?
    case _ => false
  }

  /** The head a failed CAS loaded, with which try_get goes on. */
  function Loaded(p: PC): Option<Link> {
    match p
    case Lost(_, now) => Some(now)
    case AddLoad(_, Continue(now)) => Some(now)
    case AddNext(_, _, Continue(now)) => Some(now)
    case AddRefs(_, _, Continue(now)) => Some(now)
    case AddCas(_, _, Continue(now)) => Some(now)
    case AddFail(_, _, Continue(now)) => Some(now)
    case _ => None
  }

  /** The call t is in at i was already under way at j, when the head was l. */
  ghost predicate SawDuringCall(run: seq<State>, j: nat, i: nat, t: Tid, l: Link) {
    j <= i < |run| && run[j].head == l && forall m | j <= m <= i :: t in run[m].pc && InGet(run[m].pc[t])
  }

  /** How one step can take a thread on: a head it goes on with was loaded just now or before, and
      it leaves empty-handed only on a null head. */
  ghost predicate Moves(s: State, p: PC, p': PC) {
    && (InGet(p') && Loaded(p').Some? ==> InGet(p) && (Loaded(p) == Loaded(p') || s.head == Loaded(p').value))
    && (InGet(p) && p'.Idle? ==> if p.LoadHead? then s.head == Null else Loaded(p) == Some(Null))
  }

  lemma RunMoves(s: State, t: Tid)
    requires Typed(s) && t in s.pc && !s.pc[t].Idle?
    ensures t in Run(s, t).pc && Moves(s, s.pc[t], Run(s, t).pc[t])
  {
    hide Typed;
    RunPc(s, t);
    hide Run;
  }

  /** Where one operation takes its thread. */
  function NextPc(s: State, p: PC): PC
    requires LinkIn(Subject(p), s.refs.Keys) && s.refs.Keys == s.next.Keys
  {
    match p
    case Idle => Idle
    case LoadHead => Resume(Continue(s.head))
    case LoadRefs(h) => if s.refs[h] % SHOULD_BE_ON_FREELIST == 0 then LoadHead else CasRefs(h, s.refs[h])
    case CasRefs(h, seen) => if s.refs[h] == seen then LoadNext(h) else LoadHead
    case LoadNext(h) => CasHead(h, s.next[h])
    case CasHead(h, _) => if s.head == To(h) then Won(h) else Lost(h, s.head)
    case Won(_) => Idle
    case Lost(h, now) =>
      if s.refs[h] == SHOULD_BE_ON_FREELIST + 1 then AddLoad(h, Continue(now)) else Resume(Continue(now))
    case AddLoad(n, k) => AddNext(n, s.head, k)
    case AddNext(n, sh, k) => AddRefs(n, sh, k)
    case AddRefs(n, sh, k) => AddCas(n, sh, k)
    case AddCas(n, sh, k) => if s.head == sh then Resume(k) else AddFail(n, s.head, k)
    case AddFail(n, sh, k) => if s.refs[n] == 1 then AddNext(n, sh, k) else Resume(k)
  }

  lemma RunPc(s: State, t: Tid)
    requires Typed(s) && t in s.pc && !s.pc[t].Idle?
    ensures LinkIn(Subject(s.pc[t]), s.refs.Keys) && s.refs.Keys == s.next.Keys
    ensures Run(s, t).pc == s.pc[t := NextPc(s, s.pc[t])]
  {
    assert Within(s.pc[t], s.refs.Keys);
    hide Typed;
  }

  lemma StepMoves(s: State, u: Tid, a: Action, t: Tid)
    requires Typed(s) && Enabled(s, u, a) && t in s.pc
    ensures t in Apply(s, u, a).pc && Moves(s, s.pc[t], Apply(s, u, a).pc[t])
  {
    if u != t {
      OthersStay(s, u, a, t);
    } else if a.Proceed? {
      RunMoves(s, t);
      hide Run, Moves;
    }
  }

  lemma OthersStay(s: State, u: Tid, a: Action, t: Tid)
    requires Typed(s) && Enabled(s, u, a) && t in s.pc && t != u
    ensures t in Apply(s, u, a).pc && Apply(s, u, a).pc[t] == s.pc[t]
  {
    hide Typed;
    if a.Proceed? { RunPc(s, u); }
    hide Run;
  }

  lemma {:induction false} SawHead(run: seq<State>, i: nat, t: Tid)
    requires IsRun(run) && i < |run| && t in run[i].pc && InGet(run[i].pc[t]) && Loaded(run[i].pc[t]).Some?
    ensures exists j: nat :: SawDuringCall(run, j, i, t, Loaded(run[i].pc[t]).value)
  {
    hide Typed, Enabled, Apply, Init, InGet, Loaded;
    if i == 0 {
      InitIdle(run[0], t);
    } else {
      assert Next(run[i - 1], run[i - 1 + 1]);
      var s, s' := run[i - 1], run[i];
      var u, a :| Typed(s) && Enabled(s, u, a) && s' == Apply(s, u, a);
      SameThreads(s, u, a);
      StepMoves(s, u, a, t);
      var l := Loaded(s'.pc[t]).value;
      if s.head == l {
        assert SawDuringCall(run, i - 1, i, t, l);
      } else {
        SawHead(run, i - 1, t);
        var j: nat :| SawDuringCall(run, j, i - 1, t, l);
        assert SawDuringCall(run, j, i, t, l);
      }
    }
  }

  lemma InitIdle(s: State, t: Tid)
    requires Init(s) && t in s.pc
    ensures !InGet(s.pc[t])
  {
  }

  lemma SameThreads(s: State, u: Tid, a: Action)
    requires Typed(s) && Enabled(s, u, a)
    ensures Apply(s, u, a).pc.Keys == s.pc.Keys
  {
  }

  /** try_get returns nullptr only if the list was empty at some moment of the call. */
  lemma NullMeansEmpty(run: seq<State>, i: nat, t: Tid)
    requires IsRun(run) && i + 1 < |run| && t in run[i].pc && InGet(run[i].pc[t])
    requires t in run[i + 1].pc && run[i + 1].pc[t].Idle?
    ensures exists j: nat :: SawDuringCall(run, j, i, t, Null) && run[j].list == []
  {
    hide Typed, Enabled, Apply, Init, InGet, Loaded, Inv, Chain;
    var s, s' := run[i], run[i + 1];
    assert Next(s, s');
    var u, a :| Typed(s) && Enabled(s, u, a) && s' == Apply(s, u, a);
    StepMoves(s, u, a, t);
    if s.pc[t].LoadHead? {
      assert SawDuringCall(run, i, i, t, Null);
      EmptyAt(run, i);
    } else {
      SawHead(run, i, t);
      var j: nat :| SawDuringCall(run, j, i, t, Null);
      EmptyAt(run, j);
      assert SawDuringCall(run, j, i, t, Null) && run[j].list == [];
    }
  }

  lemma EmptyAt(run: seq<State>, j: nat)
    requires IsRun(run) && j < |run| && run[j].head == Null
    ensures run[j].list == []
  {
    RunInv(run, j);
    hide IsRun;
    InvGlobal(run[j]);
  }

  ghost predicate AllIdle(s: State) { forall u | u in s.pc :: s.pc[u].Idle? }

  lemma IdleCounts(s: State, n: Node)
    requires Inv(s) && n in s.refs && AllIdle(s)
    ensures Typed(s) && Holders(s.pc, n) == {} && n in s.place
    ensures s.place[n].OnList? ==> s.refs[n] == 1
    ensures s.place[n].Owned? ==> s.refs[n] == 0
  {
    InvNode(s, n);
    assert Holders(s.pc, n) == {};
  }

  /** The states of a call that runs alone. */
  ghost predicate IsPath(path: seq<State>) { forall i | 0 <= i < |path| - 1 :: Next(path[i], path[i + 1]) }

  /** What a thread that runs alone does to its node and to the list. */
  ghost predicate Leaves(s: State, s': State, n: Node, list: seq<Node>, p: Place, e: Event) {
    && s'.list == list && s'.log == s.log + [e] && s'.pc == s.pc
    && n in s'.place && s'.place == s.place[n := p]
  }

  /** State s with thread t at p. */
  function At(s: State, t: Tid, p: PC): State { s.(pc := s.pc[t := p]) }

  lemma AtPc(s: State, t: Tid, p: PC)
    ensures t in At(s, t, p).pc && At(s, t, p).pc[t] == p
  {
  }

  /** One operation of a thread that runs alone, from x to y. */
  lemma Alone(x: State, y: State, t: Tid)
    requires Inv(x) && t in x.pc && !x.pc[t].Idle? && (Typed(x) ==> y == Run(x, t))
    ensures Inv(y) && Next(x, y)
  {
    hide Inv;
    InvGlobal(x);
    hide Typed, Run;
    assert Enabled(x, t, Proceed);
    StepKeepsInv(x, t, Proceed);
  }

  lemma Starts(s: State, t: Tid, a: Action)
    requires Inv(s) && Enabled(s, t, a) && Typed(s)
    ensures Inv(Apply(s, t, a)) && Next(s, Apply(s, t, a))
  {
    hide Inv, Typed;
    StepKeepsInv(s, t, a);
  }

  /** The steps of a try_get that meets no other thread. */
  lemma GetSteps(s: State, t: Tid, h: Node, nx: Link)
    requires t in s.pc && h in s.refs && h in s.next && h in s.place
    ensures s.head == To(h) && Typed(At(s, t, LoadHead)) ==> Run(At(s, t, LoadHead), t) == At(s, t, LoadRefs(h))
    ensures s.refs[h] == 1 && Typed(At(s, t, LoadRefs(h))) ==> Run(At(s, t, LoadRefs(h)), t) == At(s, t, CasRefs(h, 1))
    ensures s.refs[h] == 1 && Typed(At(s, t, CasRefs(h, 1))) ==>
      Run(At(s, t, CasRefs(h, 1)), t) == At(s.(refs := s.refs[h := 2]), t, LoadNext(h))
    ensures s.next[h] == nx && Typed(At(s, t, LoadNext(h))) ==>
      Run(At(s, t, LoadNext(h)), t) == At(s, t, CasHead(h, nx))
    ensures s.head == To(h) && |s.list| > 0 && Typed(At(s, t, CasHead(h, nx))) ==>
      Run(At(s, t, CasHead(h, nx)), t) == At(Taken(s, t, h, nx), t, Won(h))
    ensures s.refs[h] == 2 && Typed(At(s, t, Won(h))) ==>
      Run(At(s, t, Won(h)), t) == At(s.(refs := s.refs[h := 0], place := s.place[h := Owned(t)]), t, Idle)
  {
    hide Typed;
  }

  function Taken(s: State, t: Tid, h: Node, nx: Link): State
    requires |s.list| > 0
  {
    s.(head := nx, place := s.place[h := Popped(t)], list := s.list[1..], log := s.log + [Got(t, h)])
  }

  /** The first half: a reference is taken and the next node loaded. */
  lemma GetReference(s: State, t: Tid, h: Node) returns (path: seq<State>)
    requires Inv(At(s, t, LoadHead)) && t in s.pc && h in s.refs && h in s.next && h in s.place
    requires s.head == To(h) && s.refs[h] == 1
    ensures |path| == 5 && path[0] == At(s, t, LoadHead) && IsPath(path) && Inv(path[4])
    ensures path[4] == At(s.(refs := s.refs[h := 2]), t, CasHead(h, s.next[h]))
  {
    hide Inv, Typed, Run, At;
    var nx, b := s.next[h], s.(refs := s.refs[h := 2]);
    GetSteps(s, t, h, nx);
    GetSteps(b, t, h, nx);
    AtPc(s, t, LoadHead);
    Alone(At(s, t, LoadHead), At(s, t, LoadRefs(h)), t);
    AtPc(s, t, LoadRefs(h));
    Alone(At(s, t, LoadRefs(h)), At(s, t, CasRefs(h, 1)), t);
    AtPc(s, t, CasRefs(h, 1));
    Alone(At(s, t, CasRefs(h, 1)), At(b, t, LoadNext(h)), t);
    AtPc(b, t, LoadNext(h));
    Alone(At(b, t, LoadNext(h)), At(b, t, CasHead(h, nx)), t);
    path := [At(s, t, LoadHead), At(s, t, LoadRefs(h)), At(s, t, CasRefs(h, 1)), At(b, t, LoadNext(h)),
             At(b, t, CasHead(h, nx))];
  }

  /** The second half: the node is taken off the list and the references given back. */
  lemma GetNode(s: State, t: Tid, h: Node, nx: Link) returns (path: seq<State>)
    requires Inv(At(s, t, CasHead(h, nx))) && t in s.pc && h in s.refs && h in s.next && h in s.place
    requires s.head == To(h) && s.refs[h] == 2 && |s.list| > 0
    ensures |path| == 3 && path[0] == At(s, t, CasHead(h, nx)) && IsPath(path)
    ensures var c := Taken(s, t, h, nx);
      path[2] == At(c.(refs := c.refs[h := 0], place := c.place[h := Owned(t)]), t, Idle)
  {
    hide Inv, Typed, Run, At;
    var c := Taken(s, t, h, nx);
    var d := c.(refs := c.refs[h := 0], place := c.place[h := Owned(t)]);
    GetSteps(s, t, h, nx);
    GetSteps(c, t, h, nx);
    AtPc(s, t, CasHead(h, nx));
    Alone(At(s, t, CasHead(h, nx)), At(c, t, Won(h)), t);
    AtPc(c, t, Won(h));
    Alone(At(c, t, Won(h)), At(d, t, Idle), t);
    path := [At(s, t, CasHead(h, nx)), At(c, t, Won(h)), At(d, t, Idle)];
  }

  lemma ReadyToGet(s: State, t: Tid)
    requires Inv(s) && AllIdle(s) && t in s.pc && s.list != []
    ensures var h := s.list[0];
      h in s.refs && h in s.next && h in s.place && s.head == To(h) && s.refs[h] == 1
    ensures s.pc[t].Idle? && Inv(At(s, t, LoadHead)) && Next(s, At(s, t, LoadHead))
  {
    HeadIs(s);
    IdleCounts(s, s.list[0]);
    hide Inv, Chain, Holders, Run;
    Starts(s, t, StartGet);
  }

  lemma BackToIdle(s: State, t: Tid)
    requires t in s.pc && s.pc[t].Idle?
    ensures At(s, t, Idle) == s
  {
    assert s.pc[t := Idle] == s.pc;
  }

  /** A try_get that runs alone on a list that is not empty takes its first node. */
  lemma GetSucceeds(s: State, t: Tid) returns (path: seq<State>)
    requires Inv(s) && AllIdle(s) && t in s.pc && s.list != []
    ensures |path| == 8 && path[0] == s && IsPath(path)
    ensures Leaves(s, path[7], s.list[0], s.list[1..], Owned(t), Got(t, s.list[0]))
  {
    hide Inv, Typed, Chain, Holders, Run, Next, IsPath, Apply, Enabled, At;
    var h := s.list[0];
    ReadyToGet(s, t);
    var b := s.(refs := s.refs[h := 2]);
    var one := GetReference(s, t, h);
    var two := GetNode(b, t, h, s.next[h]);
    path := [s] + one[..4] + two;
    Joined(s, one, two);
    BackToIdle(Taken(b, t, h, s.next[h]).(refs := b.refs[h := 0], place := s.place[h := Owned(t)]), t);
    assert Taken(b, t, h, s.next[h]).place[h := Owned(t)] == s.place[h := Owned(t)];
  }

  lemma Joined(s: State, one: seq<State>, two: seq<State>)
    requires IsPath(one) && IsPath(two) && |one| == 5 && |two| == 3 && one[4] == two[0] && Next(s, one[0])
    ensures IsPath([s] + one[..4] + two)
  {
    hide Next;
    var path := [s] + one[..4] + two;
    forall i | 0 <= i < |path| - 1
      ensures Next(path[i], path[i + 1])
    {
      if 1 <= i < 5 { assert Next(one[i - 1], one[i - 1 + 1]); }
      if i >= 5 { assert Next(two[i - 5], two[i - 5 + 1]); }
    }
  }

  lemma HeadIs(s: State)
    requires Inv(s) && s.list != []
    ensures s.head == To(s.list[0]) && s.list[0] in s.refs && s.list[0] in s.place && s.place[s.list[0]].OnList?
  {
    hide Inv;
    InvGlobal(s);
    assert Chain(s.head, s.list, s.next);
    HeadOnList(s);
  }

  /** The steps of an add that meets no other thread. */
  lemma AddSteps(s: State, t: Tid, n: Node, sh: Link)
    requires t in s.pc && n in s.refs && n in s.next && n in s.place
    ensures Typed(At(s, t, AddLoad(n, Return))) ==>
      Run(At(s, t, AddLoad(n, Return)), t) == At(s, t, AddNext(n, s.head, Return))
    ensures Typed(At(s, t, AddNext(n, sh, Return))) ==>
      Run(At(s, t, AddNext(n, sh, Return)), t) == At(s.(next := s.next[n := sh]), t, AddRefs(n, sh, Return))
    ensures Typed(At(s, t, AddRefs(n, sh, Return))) ==>
      Run(At(s, t, AddRefs(n, sh, Return)), t)
        == At(s.(refs := s.refs[n := 1], place := s.place[n := Linking(t)]), t, AddCas(n, sh, Return))
    ensures s.head == sh && Typed(At(s, t, AddCas(n, sh, Return))) ==>
      Run(At(s, t, AddCas(n, sh, Return)), t)
        == At(s.(head := To(n), place := s.place[n := OnList], list := [n] + s.list), t, Idle)
  {
    hide Typed;
  }

  lemma AddPath(b: State, t: Tid, n: Node) returns (path: seq<State>)
    requires Inv(At(b, t, AddLoad(n, Return))) && t in b.pc && n in b.refs && n in b.next && n in b.place
    ensures |path| == 5 && path[0] == At(b, t, AddLoad(n, Return)) && IsPath(path)
    ensures path[4] == At(b.(head := To(n), next := b.next[n := b.head], refs := b.refs[n := 1],
                             place := b.place[n := OnList], list := [n] + b.list), t, Idle)
  {
    hide Inv, Typed, Run, At;
    var sh := b.head;
    var c := b.(next := b.next[n := sh]);
    var d := c.(refs := c.refs[n := 1], place := c.place[n := Linking(t)]);
    var e := d.(head := To(n), place := d.place[n := OnList], list := [n] + d.list);
    AddSteps(b, t, n, sh);
    AddSteps(c, t, n, sh);
    AddSteps(d, t, n, sh);
    AtPc(b, t, AddLoad(n, Return));
    Alone(At(b, t, AddLoad(n, Return)), At(b, t, AddNext(n, sh, Return)), t);
    AtPc(b, t, AddNext(n, sh, Return));
    Alone(At(b, t, AddNext(n, sh, Return)), At(c, t, AddRefs(n, sh, Return)), t);
    AtPc(c, t, AddRefs(n, sh, Return));
    Alone(At(c, t, AddRefs(n, sh, Return)), At(d, t, AddCas(n, sh, Return)), t);
    AtPc(d, t, AddCas(n, sh, Return));
    Alone(At(d, t, AddCas(n, sh, Return)), At(e, t, Idle), t);
    path := [At(b, t, AddLoad(n, Return)), At(b, t, AddNext(n, sh, Return)), At(c, t, AddRefs(n, sh, Return)),
             At(d, t, AddCas(n, sh, Return)), At(e, t, Idle)];
    assert e.place == b.place[n := OnList];
  }

  /** An add that runs alone puts the node in front. */
  lemma AddSucceeds(s: State, t: Tid, n: Node) returns (path: seq<State>)
    requires Inv(s) && AllIdle(s) && t in s.pc && n in s.place && s.place[n] == Owned(t)
    ensures |path| == 6 && path[0] == s && IsPath(path)
    ensures Leaves(s, path[5], n, [n] + s.list, OnList, Added(t, n))
  {
    hide Inv, Typed, Chain, Holders, Run, Next, Apply, Enabled, At;
    var b := Begun(s, t, n);
    ReadyToAdd(s, t, n);
    var rest := AddPath(b, t, n);
    path := [s] + rest;
    forall i | 0 <= i < |path| - 1
      ensures Next(path[i], path[i + 1])
    {
      if i > 0 { assert Next(rest[i - 1], rest[i - 1 + 1]); }
    }
    BackToIdle(b.(head := To(n), next := b.next[n := b.head], refs := b.refs[n := 1],
                  place := b.place[n := OnList], list := [n] + b.list), t);
    assert b.place[n := OnList] == s.place[n := OnList];
  }

  function Begun(s: State, t: Tid, n: Node): State {
    s.(refs := s.refs[n := SHOULD_BE_ON_FREELIST], place := s.place[n := Adding(t)], log := s.log + [Added(t, n)])
  }

  lemma ReadyToAdd(s: State, t: Tid, n: Node)
    requires Inv(s) && AllIdle(s) && t in s.pc && n in s.place && s.place[n] == Owned(t)
    ensures n in s.refs && n in s.next && s.pc[t].Idle?
    ensures Inv(At(Begun(s, t, n), t, AddLoad(n, Return))) && Next(s, At(Begun(s, t, n), t, AddLoad(n, Return)))
  {
    hide Inv, Chain, Holders, Run, Next, LogOk, ListOk;
    OwnedFacts(s, t, n);
    Starts(s, t, StartAdd(n));
    assert Apply(s, t, StartAdd(n)) == At(Begun(s, t, n), t, AddLoad(n, Return)) by { hide Typed; }
  }

  lemma OwnedFacts(s: State, t: Tid, n: Node)
    requires Inv(s) && AllIdle(s) && t in s.pc && n in s.place && s.place[n] == Owned(t)
    ensures Typed(s) && n in s.refs && n in s.next && s.refs[n] == 0 && s.pc[t].Idle?
  {
    InvGlobal(s);
    IdleCounts(s, n);
  }
}
