/** The thread model of a chain of backends, and the locks that enforce it, as a
    transition system over any number of threads. */
module Locks {
  import opened Common

  // ---------- Thread model ----------

  const SERIALIZE_CONNECTIONS := 0
  const SERIALIZE_ALL_REQUESTS := 1
  const SERIALIZE_REQUESTS := 2
  const PARALLEL := 3

  // The plugin has a compiled-in model; the plugin and any filter may have a
  // .thread_model callback, whose answer -1 ends the server.
  datatype Backend =
    | Plugin(model: int, callback: Option<int>, atomicCloexec: bool)
    | Filter(callback: Option<int>, next: Backend)

  // None: the server exits.
  function ThreadModel(b: Backend): Option<int> {
    match b
    case Plugin(m, callback, atomicCloexec) =>
      var capped := if !atomicCloexec && m > SERIALIZE_ALL_REQUESTS then SERIALIZE_ALL_REQUESTS else m;
      if callback.None? then Some(capped)
      else if callback.value == -1 then None
      else Some(if callback.value < capped then callback.value else capped)
    case Filter(callback, next) =>
      var model := ThreadModel(next);
      var own := if callback.Some? then callback.value else PARALLEL;
      if model.None? || (callback.Some? && own == -1) then None
      else Some(if own < model.value then own else model.value)
  }

  // Everything in the chain that limits the model.
  function Limits(b: Backend): set<int> {
    (match b.callback case Some(m) => {m} case None => {}) +
    match b
    case Plugin(m, _, atomicCloexec) => {m} + if atomicCloexec then {} else {SERIALIZE_ALL_REQUESTS}
    case Filter(callback, next) => Limits(next) + if callback.None? then {PARALLEL} else {}
  }

  predicate Refused(b: Backend) {
    b.callback == Some(-1) || (b.Filter? && Refused(b.next))
  }

  lemma {:induction false} EffectiveModelIsLeast(b: Backend)
    ensures ThreadModel(b).None? <==> Refused(b)
    ensures ThreadModel(b).Some? ==>
              ThreadModel(b).value in Limits(b) && forall m :: m in Limits(b) ==> ThreadModel(b).value <= m
  {
    if b.Filter? {
      EffectiveModelIsLeast(b.next);
    }
  }

  // ---------- Locks ----------

  // The unload prevention lock is a read-write lock: a request takes it to read.
  datatype Lock =
    | ConnectionLock | AllRequestsLock | RequestLock(conn: nat)
    | UnloadRead | UnloadWrite
    | ReadLock(conn: nat) | WriteLock(conn: nat) | StatusLock(conn: nat)

  // Two threads may not hold a and b at once.
  predicate Conflict(a: Lock, b: Lock) {
    if a.UnloadRead? then b.UnloadWrite?
    else if a.UnloadWrite? then b.UnloadRead? || b.UnloadWrite?
    else a == b
  }

  // The locking calls: lock_connection, lock_request by a thread with or without a
  // connection, lock_unload, and the scoped locks of a connection.
  datatype Call =
    | LockConnection | LockRequest(conn: Option<nat>) | LockUnload
    | ReadWire(c: nat) | WriteWire(c: nat) | CheckStatus(c: nat)

  function LocksOf(model: int, call: Call): seq<Lock> {
    match call
    case LockConnection => if model <= SERIALIZE_CONNECTIONS then [ConnectionLock] else []
    case LockRequest(conn) =>
      (if model <= SERIALIZE_ALL_REQUESTS then [AllRequestsLock] else []) +
      (if conn.Some? && model <= SERIALIZE_REQUESTS then [RequestLock(conn.value)] else []) +
      [UnloadRead]
    case LockUnload => [UnloadWrite]
    case ReadWire(c) => [ReadLock(c)]
    case WriteWire(c) => [WriteLock(c)]
    case CheckStatus(c) => [StatusLock(c)]
  }

  // The documented precedence: a call is never made inside one of the same or a later place.
  function Place(call: Call): nat {
    match call
    case LockConnection => 0
    case LockRequest(_) => 1
    case LockUnload => 1
    case ReadWire(_) => 2
    case WriteWire(_) => 3
    case CheckStatus(_) => 4
  }

  predicate InOrder(calls: seq<Call>) {
    forall i, j :: 0 <= i < j < |calls| ==> Place(calls[i]) < Place(calls[j])
  }

  // ---------- Threads ----------

  // The calls a thread has made and not left, outermost first; how many of their locks
  // it holds; whether it is releasing those of the innermost call.
  datatype Thread = Thread(calls: seq<Call>, taken: nat, leaving: bool)

  datatype State = State(model: int, threads: seq<Thread>)

  function Wanted(model: int, calls: seq<Call>): seq<Lock> {
    if calls == [] then []
    else Wanted(model, calls[..|calls| - 1]) + LocksOf(model, calls[|calls| - 1])
  }

  function Outer(calls: seq<Call>): seq<Call> {
    if calls == [] then [] else calls[..|calls| - 1]
  }

  ghost predicate ThreadOk(model: int, t: Thread) {
    && InOrder(t.calls)
    && |Wanted(model, Outer(t.calls))| <= t.taken <= |Wanted(model, t.calls)|
    && (t.leaving ==> t.calls != [])
  }

  function Held(model: int, t: Thread): seq<Lock> {
    var w := Wanted(model, t.calls);
    if t.taken <= |w| then w[..t.taken] else w
  }

  // The thread is blocked in, or about to take, this lock.
  predicate Waiting(model: int, t: Thread) {
    !t.leaving && t.taken < |Wanted(model, t.calls)|
  }

  function Next(model: int, t: Thread): Lock
    requires Waiting(model, t)
  {
    Wanted(model, t.calls)[t.taken]
  }

  ghost predicate Free(s: State, i: nat, l: Lock) {
    forall j, h :: 0 <= j < |s.threads| && j != i && h in Held(s.model, s.threads[j]) ==> !Conflict(h, l)
  }

  // A thread makes a call, takes the next lock of it, starts to leave it, releases its
  // last lock, has left it.
  datatype Move = Make(call: Call) | Take | Leave | Release | Left

  predicate Can(model: int, t: Thread, m: Move) {
    match m
    case Make(call) => !t.leaving && !Waiting(model, t) && InOrder(t.calls + [call])
    case Take => Waiting(model, t)
    case Leave => !t.leaving && !Waiting(model, t) && t.calls != []
    case Release => t.leaving && t.taken > |Wanted(model, Outer(t.calls))|
    case Left => t.leaving && t.taken == |Wanted(model, Outer(t.calls))|
  }

  function After(t: Thread, m: Move): Thread {
    match m
    case Make(call) => t.(calls := t.calls + [call])
    case Take => t.(taken := t.taken + 1)
    case Leave => t.(leaving := true)
    case Release => if t.taken > 0 then t.(taken := t.taken - 1) else t
    case Left => Thread(Outer(t.calls), t.taken, false)
  }

  ghost predicate Moves(s: State, i: nat, m: Move) {
    && i < |s.threads|
    && Can(s.model, s.threads[i], m)
    && (m.Take? ==> Free(s, i, Next(s.model, s.threads[i])))
  }

  function Stepped(s: State, i: nat, m: Move): State
    requires i < |s.threads|
  {
    s.(threads := s.threads[i := After(s.threads[i], m)])
  }

  ghost predicate Step(s: State, s': State) {
    exists i: nat, m :: Moves(s, i, m) && s' == Stepped(s, i, m)
  }

  ghost predicate Init(s: State) {
    forall i :: 0 <= i < |s.threads| ==> s.threads[i] == Thread([], 0, false)
  }

  ghost predicate Run(r: seq<State>) {
    && r != [] && Init(r[0])
    && forall i, j :: 0 <= i < j < |r| && j == i + 1 ==> Step(r[i], r[j])
  }

  ghost predicate Reachable(s: State) {
    exists r :: Run(r) && r[|r| - 1] == s
  }

  // ---------- What every reachable state keeps ----------

  ghost predicate Apart(held: seq<Lock>, other: seq<Lock>) {
    forall a, b :: a in held && b in other ==> !Conflict(a, b)
  }

  ghost predicate Sound(s: State) {
    && (forall i :: 0 <= i < |s.threads| ==> ThreadOk(s.model, s.threads[i]))
    && (forall i, j :: 0 <= i < |s.threads| && 0 <= j < |s.threads| && i != j ==>
          Apart(Held(s.model, s.threads[i]), Held(s.model, s.threads[j])))
  }

  lemma Making(model: int, calls: seq<Call>, call: Call)
    ensures Outer(calls + [call]) == calls
    ensures Wanted(model, calls + [call]) == Wanted(model, calls) + LocksOf(model, call)
  {
    assert (calls + [call])[..|calls|] == calls;
  }

  lemma OuterGrows(model: int, calls: seq<Call>)
    ensures Wanted(model, Outer(calls)) <= Wanted(model, calls)
  {
  }

  lemma MoveKeepsThread(model: int, t: Thread, m: Move)
    requires ThreadOk(model, t) && Can(model, t, m)
    ensures ThreadOk(model, After(t, m))
  {
    hide LocksOf, Place;
    OuterGrows(model, Outer(t.calls));
    if m.Make? {
      Making(model, t.calls, m.call);
    }
  }

  // Only taking a lock adds to what a thread holds.
  lemma HeldAfter(model: int, t: Thread, m: Move)
    requires ThreadOk(model, t) && Can(model, t, m)
    ensures m.Take? ==> Held(model, After(t, m)) == Held(model, t) + [Next(model, t)]
    ensures !m.Take? ==> Held(model, After(t, m)) <= Held(model, t)
  {
    hide LocksOf, Place, InOrder;
    OuterGrows(model, t.calls);
    if m.Make? {
      Making(model, t.calls, m.call);
    }
  }

  lemma ConflictIsMutual(a: Lock, b: Lock)
    ensures Conflict(a, b) <==> Conflict(b, a)
  {
  }

  lemma StepKeepsApart(s: State, i: nat, m: Move, j: nat)
    requires Sound(s) && Moves(s, i, m) && j < |s.threads| && j != i
    ensures Apart(Held(s.model, After(s.threads[i], m)), Held(s.model, s.threads[j]))
    ensures Apart(Held(s.model, s.threads[j]), Held(s.model, After(s.threads[i], m)))
  {
    hide Held, Wanted, ThreadOk, After, Waiting, Next, Conflict;
    HeldAfter(s.model, s.threads[i], m);
    var held, now, other := Held(s.model, s.threads[i]), Held(s.model, After(s.threads[i], m)), Held(s.model, s.threads[j]);
    assert Apart(held, other);
    forall a, b | a in now && b in other
      ensures !Conflict(a, b) && !Conflict(b, a)
    {
      ConflictIsMutual(a, b);
      assert a in held || (m.Take? && a == Next(s.model, s.threads[i]));
    }
  }

  lemma StepKeepsSound(s: State, s': State)
    requires Sound(s) && Step(s, s')
    ensures Sound(s')
  {
    hide Held, Wanted, ThreadOk, After, Waiting, Next, Can, Apart, Free;
    var i: nat, m :| Moves(s, i, m) && s' == Stepped(s, i, m);
    MoveKeepsThread(s.model, s.threads[i], m);
    forall j | 0 <= j < |s.threads| && j != i
      ensures Apart(Held(s.model, After(s.threads[i], m)), Held(s.model, s.threads[j]))
      ensures Apart(Held(s.model, s.threads[j]), Held(s.model, After(s.threads[i], m)))
    {
      StepKeepsApart(s, i, m, j);
    }
  }

  lemma {:induction false} RunIsSound(r: seq<State>)
    requires Run(r)
    ensures Sound(r[|r| - 1])
  {
    if |r| > 1 {
      var before := r[..|r| - 1];
      RunIsSound(before);
      StepKeepsSound(before[|before| - 1], r[|r| - 1]);
    }
  }

  // ---------- What the locks are for ----------

  // Thread i is past the locking call and has not started to unlock.
  predicate Inside(s: State, i: nat, call: Call) {
    && i < |s.threads|
    && var t := s.threads[i];
    && call in t.calls
    && (call in Outer(t.calls) || (!t.leaving && !Waiting(s.model, t)))
  }

  lemma {:induction false} WantsItsCalls(model: int, calls: seq<Call>, call: Call, l: Lock)
    requires call in calls && l in LocksOf(model, call)
    ensures l in Wanted(model, calls)
  {
    if call != calls[|calls| - 1] {
      assert call in Outer(calls);
      WantsItsCalls(model, Outer(calls), call, l);
    }
  }

  lemma InsideHolds(s: State, i: nat, call: Call, l: Lock)
    requires Sound(s) && Inside(s, i, call) && l in LocksOf(s.model, call)
    ensures l in Held(s.model, s.threads[i])
  {
    hide LocksOf, InOrder;
    var t := s.threads[i];
    assert ThreadOk(s.model, t);
    OuterGrows(s.model, t.calls);
    if call in Outer(t.calls) {
      WantsItsCalls(s.model, Outer(t.calls), call, l);
    } else {
      WantsItsCalls(s.model, t.calls, call, l);
    }
  }

  // The calls that the thread model lets two threads be inside of at once.
  predicate Compatible(model: int, a: Call, b: Call) {
    forall l, k :: l in LocksOf(model, a) && k in LocksOf(model, b) ==> !Conflict(l, k)
  }

  lemma InsideIsCompatible(s: State, i: nat, a: Call, j: nat, b: Call)
    requires Sound(s) && i != j && Inside(s, i, a) && Inside(s, j, b)
    ensures Compatible(s.model, a, b)
  {
    hide LocksOf, Conflict, Held, ThreadOk;
    forall l, k | l in LocksOf(s.model, a) && k in LocksOf(s.model, b)
      ensures !Conflict(l, k)
    {
      InsideHolds(s, i, a, l);
      InsideHolds(s, j, b, k);
      assert Apart(Held(s.model, s.threads[i]), Held(s.model, s.threads[j]));
    }
  }

  // The documented meaning of the four models.
  predicate Permitted(model: int, a: Call, b: Call) {
    && (a.LockRequest? && b.LockRequest? ==> model > SERIALIZE_ALL_REQUESTS)
    && (a.LockRequest? && b.LockRequest? && a.conn.Some? && a.conn == b.conn ==> model > SERIALIZE_REQUESTS)
    && (a.LockConnection? && b.LockConnection? ==> model > SERIALIZE_CONNECTIONS)
    && (a.LockUnload? ==> !b.LockRequest? && !b.LockUnload?)
    && (b.LockUnload? ==> !a.LockRequest?)
    && (!a.LockRequest? && !a.LockConnection? ==> a != b)
  }

  // Which calls take a lock.
  predicate Takes(model: int, call: Call, l: Lock) {
    match l
    case ConnectionLock => call.LockConnection? && model <= SERIALIZE_CONNECTIONS
    case AllRequestsLock => call.LockRequest? && model <= SERIALIZE_ALL_REQUESTS
    case RequestLock(c) => call == LockRequest(Some(c)) && model <= SERIALIZE_REQUESTS
    case UnloadRead => call.LockRequest?
    case UnloadWrite => call.LockUnload?
    case ReadLock(c) => call == ReadWire(c)
    case WriteLock(c) => call == WriteWire(c)
    case StatusLock(c) => call == CheckStatus(c)
  }

  lemma TakesIffListed(model: int, call: Call, l: Lock)
    ensures Takes(model, call, l) <==> l in LocksOf(model, call)
  {
  }

  // The lock over which two calls meet when the model does not permit both.
  function Contended(model: int, a: Call): Lock {
    match a
    case LockConnection => ConnectionLock
    case LockRequest(conn) =>
      if model <= SERIALIZE_ALL_REQUESTS then AllRequestsLock
      else if conn.Some? && model <= SERIALIZE_REQUESTS then RequestLock(conn.value) else UnloadRead
    case LockUnload => UnloadWrite
    case ReadWire(c) => ReadLock(c)
    case WriteWire(c) => WriteLock(c)
    case CheckStatus(c) => StatusLock(c)
  }

  lemma PermittedIsCompatible(model: int, a: Call, b: Call)
    requires Permitted(model, a, b)
    ensures Compatible(model, a, b)
  {
    hide LocksOf;
    forall l, k | l in LocksOf(model, a) && k in LocksOf(model, b)
      ensures !Conflict(l, k)
    {
      TakesIffListed(model, a, l);
      TakesIffListed(model, b, k);
    }
  }

  lemma CompatibleIsPermitted(model: int, a: Call, b: Call)
    requires Compatible(model, a, b)
    ensures Permitted(model, a, b)
  {
    hide LocksOf;
    var l := if b.LockUnload? && a.LockRequest? then UnloadRead else Contended(model, a);
    var k := if a.LockUnload? && b.LockRequest? then UnloadRead else Contended(model, b);
    TakesIffListed(model, a, l);
    TakesIffListed(model, b, k);
    assert !Permitted(model, a, b) ==> Conflict(l, k);
  }

  // ---------- The locks allow all that the model permits ----------

  lemma Extend(r: seq<State>, i: nat, m: Move) returns (r': seq<State>)
    requires Run(r) && Moves(r[|r| - 1], i, m)
    ensures Run(r') && r'[|r'| - 1] == Stepped(r[|r| - 1], i, m)
  {
    hide Can, After, Init;
    r' := r + [Stepped(r[|r| - 1], i, m)];
  }

  // A thread whose locks are all free takes those that it still needs.
  lemma {:induction false} TakeAll(r: seq<State>, s: State, i: nat, t: Thread) returns (r': seq<State>)
    requires Run(r) && s == r[|r| - 1] && i < |s.threads| && t == s.threads[i]
    requires !t.leaving && t.taken <= |Wanted(s.model, t.calls)|
    requires forall l :: l in Wanted(s.model, t.calls) ==> Free(s, i, l)
    ensures Run(r')
    ensures r'[|r'| - 1] == s.(threads := s.threads[i := t.(taken := |Wanted(s.model, t.calls)|)])
    decreases |Wanted(s.model, t.calls)| - t.taken
  {
    hide Run, Held, LocksOf, Conflict;
    if Waiting(s.model, t) {
      assert Next(s.model, t) in Wanted(s.model, t.calls);
      r' := Extend(r, i, Take);
      var s' := Stepped(s, i, Take);
      forall l | l in Wanted(s.model, t.calls)
        ensures Free(s', i, l)
      {
        assert Free(s, i, l);
      }
      r' := TakeAll(r', s', i, After(t, Take));
    } else {
      r' := r;
    }
  }

  lemma Enter(r: seq<State>, s: State, i: nat, call: Call) returns (r': seq<State>)
    requires Run(r) && s == r[|r| - 1] && i < |s.threads| && s.threads[i] == Thread([], 0, false)
    requires forall l :: l in LocksOf(s.model, call) ==> Free(s, i, l)
    ensures Run(r')
    ensures r'[|r'| - 1] == s.(threads := s.threads[i := Thread([call], |LocksOf(s.model, call)|, false)])
  {
    hide Run, Held, LocksOf, Conflict;
    Making(s.model, [], call);
    r' := Extend(r, i, Make(call));
    var s' := Stepped(s, i, Make(call));
    forall l | l in LocksOf(s.model, call)
      ensures Free(s', i, l)
    {
      assert Free(s, i, l);
    }
    r' := TakeAll(r', s', i, Thread([call], 0, false));
  }

  // Two threads that do nothing else enter a and b.
  lemma BothEnter(model: int, a: Call, b: Call) returns (s: State)
    requires Compatible(model, a, b)
    ensures Reachable(s) && s.model == model && Inside(s, 0, a) && Inside(s, 1, b)
  {
    hide LocksOf, Conflict;
    var idle := Thread([], 0, false);
    var start := State(model, [idle, idle]);
    Making(model, [], a);
    Making(model, [], b);
    var r := Enter([start], start, 0, a);
    var mid := State(model, [Thread([a], |LocksOf(model, a)|, false), idle]);
    assert r[|r| - 1] == mid;
    assert Held(model, mid.threads[0]) == LocksOf(model, a);
    r := Enter(r, mid, 1, b);
    s := State(model, [mid.threads[0], Thread([b], |LocksOf(model, b)|, false)]);
    assert r[|r| - 1] == s;
  }

  // In some reachable state, threads i and j are inside a and b.
  ghost predicate Coexist(model: int, a: Call, b: Call, s: State, i: nat, j: nat) {
    Reachable(s) && s.model == model && i != j && Inside(s, i, a) && Inside(s, j, b)
  }

  // Two threads can be inside two calls at once exactly if the thread model permits it.
  lemma ModelIsExact(model: int, a: Call, b: Call)
    ensures Permitted(model, a, b) <==> exists s, i, j :: Coexist(model, a, b, s, i, j)
  {
    hide Compatible, Permitted, Inside;
    if Permitted(model, a, b) {
      PermittedIsCompatible(model, a, b);
      var s := BothEnter(model, a, b);
      assert Coexist(model, a, b, s, 0, 1);
    }
    if s, i, j :| Coexist(model, a, b, s, i, j) {
      var r :| Run(r) && r[|r| - 1] == s;
      RunIsSound(r);
      InsideIsCompatible(s, i, a, j, b);
      CompatibleIsPermitted(model, a, b);
    }
  }

  // ---------- No deadlock ----------

  function Rank(l: Lock): nat {
    match l
    case ConnectionLock => 0
    case AllRequestsLock => 1
    case RequestLock(_) => 2
    case UnloadRead => 3
    case UnloadWrite => 3
    case ReadLock(_) => 4
    case WriteLock(_) => 5
    case StatusLock(_) => 6
  }

  // Every thread of d waits for a lock that another thread of d holds.
  ghost predicate Deadlocked(s: State, d: set<nat>) {
    forall i :: i in d ==> BlockedIn(s, d, i)
  }

  ghost predicate BlockedIn(s: State, d: set<nat>, i: nat) {
    exists j :: j in d && Blocks(s, j, i)
  }

  ghost predicate Blocks(s: State, j: nat, i: nat) {
    && i < |s.threads| && j < |s.threads| && i != j && Waiting(s.model, s.threads[i])
    && exists h :: h in Held(s.model, s.threads[j]) && Conflict(h, Next(s.model, s.threads[i]))
  }

  function PlaceOf(l: Lock): nat {
    if Rank(l) == 0 then 0 else if Rank(l) <= 3 then 1 else Rank(l) - 2
  }

  lemma LocksInPlace(model: int, call: Call)
    ensures forall l :: l in LocksOf(model, call) ==> PlaceOf(l) == Place(call)
    ensures forall i, j :: 0 <= i < j < |LocksOf(model, call)| ==> Rank(LocksOf(model, call)[i]) < Rank(LocksOf(model, call)[j])
  {
  }

  lemma {:induction false} WantedInOrder(model: int, calls: seq<Call>)
    requires InOrder(calls)
    ensures forall l :: l in Wanted(model, calls) ==> exists c :: c in calls && PlaceOf(l) == Place(c)
    ensures forall i, j :: 0 <= i < j < |Wanted(model, calls)| ==> Rank(Wanted(model, calls)[i]) < Rank(Wanted(model, calls)[j])
  {
    hide LocksOf, Rank, Place, PlaceOf;
    if calls != [] {
      var last := calls[|calls| - 1];
      LocksInPlace(model, last);
      WantedInOrder(model, Outer(calls));
      forall i, j | 0 <= i < |Wanted(model, Outer(calls))| <= j < |Wanted(model, calls)|
        ensures Rank(Wanted(model, calls)[i]) < Rank(Wanted(model, calls)[j])
      {
        var l, k := Wanted(model, calls)[i], Wanted(model, calls)[j];
        assert l in Wanted(model, Outer(calls)) && k in LocksOf(model, last);
        PlacesFollowRanks(l, k);
      }
      assert last in calls;
    }
  }

  lemma PlacesFollowRanks(l: Lock, k: Lock)
    ensures PlaceOf(l) < PlaceOf(k) ==> Rank(l) < Rank(k)
    ensures Conflict(l, k) ==> Rank(l) == Rank(k)
  {
  }

  // A thread waits for a lock that comes after all those that it holds.
  lemma WaitsAbove(s: State, i: nat, h: Lock)
    requires Sound(s) && i < |s.threads| && Waiting(s.model, s.threads[i]) && h in Held(s.model, s.threads[i])
    ensures Rank(h) < Rank(Next(s.model, s.threads[i]))
  {
    assert ThreadOk(s.model, s.threads[i]);
    WantedInOrder(s.model, s.threads[i].calls);
  }

  lemma BlockerOf(s: State, d: set<nat>, i: nat) returns (j: nat, h: Lock)
    requires BlockedIn(s, d, i)
    ensures j in d && i < |s.threads| && j < |s.threads| && Waiting(s.model, s.threads[i])
    ensures h in Held(s.model, s.threads[j]) && Conflict(h, Next(s.model, s.threads[i]))
  {
    j :| j in d && Blocks(s, j, i);
    h :| h in Held(s.model, s.threads[j]) && Conflict(h, Next(s.model, s.threads[i]));
  }

  // Along a circle of blocked threads the ranks would grow without end.
  lemma {:induction false} NoCircle(s: State, d: set<nat>, i: nat)
    requires Sound(s) && i in d && i < |s.threads| && Waiting(s.model, s.threads[i])
    ensures !Deadlocked(s, d)
    decreases 6 - Rank(Next(s.model, s.threads[i]))
  {
    hide Rank, Conflict, Held, Wanted, Waiting, Next, Sound, BlockedIn;
    RanksEnd(Next(s.model, s.threads[i]));
    if Deadlocked(s, d) {
      var j, h := BlockerOf(s, d, i);
      PlacesFollowRanks(h, Next(s.model, s.threads[i]));
      var k, g := BlockerOf(s, d, j);
      WaitsAbove(s, j, h);
      NoCircle(s, d, j);
    }
  }

  lemma RanksEnd(l: Lock)
    ensures Rank(l) <= 6
  {
  }

  // No set of threads of a reachable state waits in a circle.
  lemma NoDeadlock(s: State, d: set<nat>)
    requires Reachable(s) && d != {}
    ensures !Deadlocked(s, d)
  {
    hide Sound, Held, Waiting, Next, BlockedIn;
    var r :| Run(r) && r[|r| - 1] == s;
    RunIsSound(r);
    if Deadlocked(s, d) {
      var i :| i in d;
      var j, h := BlockerOf(s, d, i);
      NoCircle(s, d, i);
    }
  }
}
