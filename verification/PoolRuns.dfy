/** Any number of goroutines inside `AddDatabaseToPool` and `AddURI` at once, one small step at
    a time: the critical sections are atomic, opening, pinging and closing are not guarded. */
module PoolRuns {
  import opened Text
  import opened Pool

  datatype Phase =
    | Start                              // before the fast path
    | Opening                            // connecting without the lock
    | Pinging(conn: Conn)                // connected, not yet known to be alive
    | Holding(conn: Conn)                // about to store
    | Losing(conn: Conn, winner: Conn)   // another call stored first: about to close
    | Done(result: Option<Conn>)

  datatype Thread = Thread(call: Call, phase: Phase)

  /** `everOpened` remembers every connection ever opened and its DSN. */
  datatype State = State(db: Table, threads: seq<Thread>, everOpened: map<Conn, string>, closed: set<Conn>)

  const INITIAL := State(map[], [], map[], {})

  datatype Action =
    | Spawn(call: Call)
    | Check(i: nat)
    | Open(i: nat, conn: Conn)
    | OpenFails(i: nat)
    | PingOk(i: nat)
    | PingFails(i: nat)
    | Store(i: nat)
    | Close(i: nat)

  predicate Enabled(s: State, a: Action) {
    match a
    case Spawn(_) => true
    case Check(i) => i < |s.threads| && s.threads[i].phase == Start
    case Open(i, conn) => i < |s.threads| && s.threads[i].phase == Opening && conn !in s.everOpened
    case OpenFails(i) => i < |s.threads| && s.threads[i].phase == Opening
    case PingOk(i) => i < |s.threads| && s.threads[i].phase.Pinging?
    case PingFails(i) => i < |s.threads| && s.threads[i].phase.Pinging?
    case Store(i) => i < |s.threads| && s.threads[i].phase.Holding?
    case Close(i) => i < |s.threads| && s.threads[i].phase.Losing?
  }

  function Checked(uri: string -> string, db: Table, call: Call): Phase {
    if call.AddUri? && call.dsn == "" then Done(None)
    else match Found(uri, db, call) case Some(c) => Done(Some(c)) case None => Opening
  }

  /** Thread `i` moves on to `phase`. */
  function Move(s: State, i: nat, phase: Phase): State
    requires i < |s.threads|
  {
    s.(threads := s.threads[i := s.threads[i].(phase := phase)])
  }

  function Apply(uri: string -> string, s: State, a: Action): State
    requires Enabled(s, a)
  {
    match a
    case Spawn(call) => s.(threads := s.threads + [Thread(call, Start)])
    case Check(i) => Move(s, i, Checked(uri, s.db, s.threads[i].call))
    case Open(i, conn) =>
      Move(s, i, Pinging(conn)).(everOpened := s.everOpened[conn := DsnOf(uri, s.threads[i].call)])
    case OpenFails(i) => Move(s, i, Done(None))
    case PingOk(i) => Move(s, i, Holding(s.threads[i].phase.conn))
    case PingFails(i) => Move(s, i, Done(None)).(closed := s.closed + {s.threads[i].phase.conn})
    case Store(i) =>
      var call, conn := s.threads[i].call, s.threads[i].phase.conn;
      var key := DsnKey(DsnOf(uri, call));
      Move(s, i, if key in s.db then Losing(conn, s.db[key]) else Done(Some(conn))).(db := Stored(uri, s.db, call, conn))
    case Close(i) =>
      Move(s, i, Done(Some(s.threads[i].phase.winner))).(closed := s.closed + {s.threads[i].phase.conn})
  }

  /** The state after the actions, if each was possible in its turn. */
  function Run(uri: string -> string, s: State, actions: seq<Action>): Option<State>
    decreases |actions|
  {
    if actions == [] then Some(s)
    else if !Enabled(s, actions[0]) then None
    else Run(uri, Apply(uri, s, actions[0]), actions[1..])
  }

  // ----- Where a connection is -----

  function Holds(t: Thread, c: Conn): nat {
    match t.phase
    case Pinging(conn) => if conn == c then 1 else 0
    case Holding(conn) => if conn == c then 1 else 0
    case Losing(conn, _) => if conn == c then 1 else 0
    case _ => 0
  }

  /** How many calls hold the connection. */
  function Holders(threads: seq<Thread>, c: Conn): nat {
    if threads == [] then 0 else Holds(threads[0], c) + Holders(threads[1..], c)
  }

  predicate InPool(s: State, c: Conn) {
    c in s.everOpened && DsnKey(s.everOpened[c]) in s.db && s.db[DsnKey(s.everOpened[c])] == c
  }

  /** In how many places the connection is. */
  function Places(s: State, c: Conn): nat {
    Holders(s.threads, c) + (if InPool(s, c) then 1 else 0) + (if c in s.closed then 1 else 0)
  }

  predicate ThreadOk(uri: string -> string, s: State, t: Thread) {
    var dsn := DsnOf(uri, t.call);
    match t.phase
    case Pinging(conn) => conn in s.everOpened && s.everOpened[conn] == dsn
    case Holding(conn) => conn in s.everOpened && s.everOpened[conn] == dsn
    case Losing(conn, winner) => Get(s.db, DsnKey(dsn)) == Some(winner)
    case Done(Some(c)) => InPool(s, c) && (t.call.AddDatabase? ==> s.everOpened[c] == dsn)
    case _ => true
  }

  /** Every connection ever opened is in exactly one place, every DSN key leads to a connection
      of that DSN, every name to a connection in the pool, and every call is where it should be. */
  ghost predicate Inv(uri: string -> string, s: State) {
    && (forall c :: Places(s, c) == if c in s.everOpened then 1 else 0)
    && (forall d :: DsnKey(d) in s.db ==> s.db[DsnKey(d)] in s.everOpened && s.everOpened[s.db[DsnKey(d)]] == d)
    && (forall n :: NameKey(n) in s.db ==> InPool(s, s.db[NameKey(n)]))
    && forall t :: t in s.threads ==> ThreadOk(uri, s, t)
  }

  lemma {:induction false} HoldersUpdate(threads: seq<Thread>, i: nat, t: Thread, c: Conn)
    requires i < |threads|
    ensures Holders(threads[i := t], c) == Holders(threads, c) - Holds(threads[i], c) + Holds(t, c)
    ensures Holders(threads, c) >= Holds(threads[i], c)
  {
    hide Holds;
    if i == 0 {
      assert threads[0 := t][1..] == threads[1..];
    } else {
      assert threads[i := t][1..] == threads[1..][i - 1 := t];
      HoldersUpdate(threads[1..], i - 1, t, c);
    }
  }

  lemma {:induction false} HoldersAppend(threads: seq<Thread>, t: Thread, c: Conn)
    ensures Holders(threads + [t], c) == Holders(threads, c) + Holds(t, c)
  {
    hide Holds;
    if threads == [] {
      assert threads + [t] == [t] && [t][1..] == [];
    } else {
      assert (threads + [t])[1..] == threads[1..] + [t];
      HoldersAppend(threads[1..], t, c);
    }
  }

  /** What a step does to where connections are. */
  lemma StepPlaces(uri: string -> string, s: State, a: Action, c: Conn)
    requires Inv(uri, s) && Enabled(s, a)
    ensures Places(Apply(uri, s, a), c) == if c in Apply(uri, s, a).everOpened then 1 else 0
  {
    hide Holders, Lookup, Found;
    var t := Apply(uri, s, a);
    assert Places(s, c) == if c in s.everOpened then 1 else 0;
    if a.Spawn? {
      HoldersAppend(s.threads, Thread(a.call, Start), c);
    } else {
      var i := a.i;
      assert ThreadOk(uri, s, s.threads[i]);
      HoldersUpdate(s.threads, i, t.threads[i], c);
    }
  }

  /** A connection in the pool stays there. */
  lemma StepKeeps(uri: string -> string, s: State, a: Action)
    requires Inv(uri, s) && Enabled(s, a)
    ensures var t := Apply(uri, s, a);
      && (forall c :: c in s.everOpened ==> c in t.everOpened && t.everOpened[c] == s.everOpened[c])
      && (forall d :: DsnKey(d) in s.db ==> DsnKey(d) in t.db && t.db[DsnKey(d)] == s.db[DsnKey(d)])
      && (forall c :: InPool(s, c) ==> InPool(t, c))
  {
    hide Holders, Places, Found;
  }

  lemma StepTable(uri: string -> string, s: State, a: Action)
    requires Inv(uri, s) && Enabled(s, a)
    ensures var t := Apply(uri, s, a);
      && (forall d :: DsnKey(d) in t.db ==> t.db[DsnKey(d)] in t.everOpened && t.everOpened[t.db[DsnKey(d)]] == d)
      && (forall n :: NameKey(n) in t.db ==> InPool(t, t.db[NameKey(n)]))
  {
    hide Holders, Places, Found;
    StepKeeps(uri, s, a);
    if a.Store? {
      assert ThreadOk(uri, s, s.threads[a.i]);
    }
  }

  /** A call that was where it should be still is. */
  lemma OthersOk(uri: string -> string, s: State, a: Action, t: Thread)
    requires Inv(uri, s) && Enabled(s, a) && ThreadOk(uri, s, t)
    ensures ThreadOk(uri, Apply(uri, s, a), t)
  {
    hide Apply, Holders, Places, Found, Inv;
    StepKeeps(uri, s, a);
  }

  /** The call that moved is where it should be. */
  lemma MoverOk(uri: string -> string, s: State, a: Action)
    requires Inv(uri, s) && Enabled(s, a) && !a.Spawn?
    ensures ThreadOk(uri, Apply(uri, s, a), Apply(uri, s, a).threads[a.i])
  {
    hide Holders, Places;
    StepKeeps(uri, s, a);
    StepTable(uri, s, a);
    assert ThreadOk(uri, s, s.threads[a.i]);
  }

  lemma StepThreads(uri: string -> string, s: State, a: Action)
    requires Inv(uri, s) && Enabled(s, a)
    ensures forall t :: t in Apply(uri, s, a).threads ==> ThreadOk(uri, Apply(uri, s, a), t)
  {
    hide Holders, Places, Found, ThreadOk;
    var after := Apply(uri, s, a);
    forall t | t in after.threads
      ensures ThreadOk(uri, after, t)
    {
      if t in s.threads {
        OthersOk(uri, s, a, t);
      } else if a.Spawn? {
        assert t == Thread(a.call, Start);
        StartOk(uri, after, a.call);
      } else {
        assert t == after.threads[a.i];
        MoverOk(uri, s, a);
      }
    }
  }

  lemma StartOk(uri: string -> string, s: State, call: Call)
    ensures ThreadOk(uri, s, Thread(call, Start))
  {
  }

  /** Every step of every goroutine keeps the invariant. */
  lemma StepInv(uri: string -> string, s: State, a: Action)
    requires Inv(uri, s) && Enabled(s, a)
    ensures Inv(uri, Apply(uri, s, a))
  {
    hide Holders, Places, Found, ThreadOk, InPool, Enabled;
    StepTable(uri, s, a);
    StepThreads(uri, s, a);
    forall c
      ensures Places(Apply(uri, s, a), c) == if c in Apply(uri, s, a).everOpened then 1 else 0
    {
      StepPlaces(uri, s, a, c);
    }
  }

  /** In every interleaving of any number of calls, every connection ever opened is in exactly
      one place: held by one call, closed, or in the pool under its DSN. */
  lemma {:induction false} RunInv(uri: string -> string, s: State, actions: seq<Action>)
    requires Inv(uri, s) && Run(uri, s, actions).Some?
    ensures Inv(uri, Run(uri, s, actions).value)
    decreases |actions|
  {
    hide Inv, Apply, Enabled;
    if actions != [] {
      StepInv(uri, s, actions[0]);
      RunInv(uri, Apply(uri, s, actions[0]), actions[1..]);
    }
  }

  lemma InitialInv(uri: string -> string)
    ensures Inv(uri, INITIAL)
  {
  }

  /** A connection in the pool is open. */
  lemma PooledIsOpen(uri: string -> string, s: State, c: Conn)
    requires Inv(uri, s) && InPool(s, c)
    ensures c !in s.closed
  {
    hide Holders, InPool;
    assert Places(s, c) <= 1;
  }

  /** A DSN key never rebinds and what is in the pool stays there. */
  lemma {:induction false} RunKeeps(uri: string -> string, s: State, actions: seq<Action>)
    requires Inv(uri, s) && Run(uri, s, actions).Some?
    ensures var t := Run(uri, s, actions).value;
      && (forall c :: c in s.everOpened ==> c in t.everOpened && t.everOpened[c] == s.everOpened[c])
      && (forall d :: DsnKey(d) in s.db ==> DsnKey(d) in t.db && t.db[DsnKey(d)] == s.db[DsnKey(d)])
      && (forall c :: InPool(s, c) ==> InPool(t, c))
    decreases |actions|
  {
    hide Apply, Enabled, InPool, Inv;
    if actions != [] {
      StepKeeps(uri, s, actions[0]);
      StepInv(uri, s, actions[0]);
      RunKeeps(uri, Apply(uri, s, actions[0]), actions[1..]);
    }
  }

  predicate Succeeded(s: State, i: nat, name: string, c: Conn) {
    i < |s.threads| && s.threads[i] == Thread(AddDatabase(name), Done(Some(c)))
  }

  /** Once a call of AddDatabaseToPool has returned a handle, GetFromPool returns that handle,
      open, at every later moment, and so does every other such call for the same DSN. */
  lemma SameHandle(uri: string -> string, before: seq<Action>, after: seq<Action>, i: nat, name: string, c: Conn)
    requires Run(uri, INITIAL, before).Some?
    requires Run(uri, Run(uri, INITIAL, before).value, after).Some?
    requires Succeeded(Run(uri, INITIAL, before).value, i, name, c)
    ensures var t := Run(uri, Run(uri, INITIAL, before).value, after).value;
      && Lookup(uri, t.db, name) == Some(c) && c in t.everOpened && t.everOpened[c] == uri(name) && c !in t.closed
      && forall j: nat, other, d :: Succeeded(t, j, other, d) && uri(other) == uri(name) ==> d == c
  {
    hide Run, Places, Holders;
    var s := Run(uri, INITIAL, before).value;
    var t := Run(uri, s, after).value;
    InitialInv(uri);
    RunInv(uri, INITIAL, before);
    RunInv(uri, s, after);
    RunKeeps(uri, s, after);
    assert s.threads[i] in s.threads;
    PooledIsOpen(uri, t, c);
    forall j: nat, other, d | Succeeded(t, j, other, d) && uri(other) == uri(name)
      ensures d == c
    {
      assert t.threads[j] in t.threads;
    }
  }

  /** The call has not begun, or was given a connection from the pool. */
  predicate Reuses(s: State, i: nat, call: Call, c: Conn) {
    i < |s.threads| && s.threads[i].call == call && (s.threads[i].phase == Start || s.threads[i].phase == Done(Some(c)))
  }

  lemma StepReuses(uri: string -> string, s: State, a: Action, i: nat, call: Call, c: Conn)
    requires Inv(uri, s) && Enabled(s, a) && Reuses(s, i, call, c) && (call.AddUri? ==> call.dsn != "")
    requires Get(s.db, DsnKey(DsnOf(uri, call))) == Some(c)
    ensures Reuses(Apply(uri, s, a), i, call, c)
  {
    hide Places, Holders, InPool, Inv;
  }

  /** Whatever the other calls do, a call that begins when its DSN has a connection in the pool
      never opens one: if it returns, it returns that connection. */
  lemma {:induction false} LateCallsReuse(uri: string -> string, s: State, actions: seq<Action>, i: nat, call: Call, c: Conn)
    requires Inv(uri, s) && Run(uri, s, actions).Some? && Reuses(s, i, call, c) && (call.AddUri? ==> call.dsn != "")
    requires Get(s.db, DsnKey(DsnOf(uri, call))) == Some(c)
    ensures Reuses(Run(uri, s, actions).value, i, call, c)
    decreases |actions|
  {
    hide Inv, Apply, Enabled, Reuses, InPool;
    if actions != [] {
      StepInv(uri, s, actions[0]);
      StepKeeps(uri, s, actions[0]);
      StepReuses(uri, s, actions[0], i, call, c);
      LateCallsReuse(uri, Apply(uri, s, actions[0]), actions[1..], i, call, c);
    }
  }

  lemma {:induction false} NobodyHolds(threads: seq<Thread>, c: Conn)
    requires forall t :: t in threads ==> t.phase.Done?
    ensures Holders(threads, c) == 0
  {
    if threads != [] {
      assert threads[0] in threads;
      NobodyHolds(threads[1..], c);
    }
  }

  /** When every call has returned, each connection opened is closed or in the pool, not both. */
  lemma NothingLeaks(uri: string -> string, actions: seq<Action>, c: Conn)
    requires Run(uri, INITIAL, actions).Some?
    requires forall t :: t in Run(uri, INITIAL, actions).value.threads ==> t.phase.Done?
    requires c in Run(uri, INITIAL, actions).value.everOpened
    ensures var s := Run(uri, INITIAL, actions).value; InPool(s, c) <==> c !in s.closed
  {
    hide Run;
    InitialInv(uri);
    RunInv(uri, INITIAL, actions);
    var s := Run(uri, INITIAL, actions).value;
    NobodyHolds(s.threads, c);
    assert Places(s, c) == 1;
  }

  // ----- Names are weaker -----

  /** The call at its fast path. */
  predicate Checks(s: State, a: Action, alias: string, dsn: string) {
    a.Check? && Enabled(s, a) && s.threads[a.i].call == AddUri(alias, dsn) && dsn != ""
  }

  /** The fast path of AddURI hands back a connection to another DSN exactly when the DSN is
      not in the pool but the name is. */
  lemma OtherDsnIff(uri: string -> string, s: State, a: Action, alias: string, dsn: string)
    requires Inv(uri, s) && Checks(s, a, alias, dsn)
    ensures var phase := Apply(uri, s, a).threads[a.i].phase;
      (phase.Done? && phase.result.Some? && s.everOpened[phase.result.value] != dsn)
      <==> DsnKey(dsn) !in s.db && NameKey(Alias(AddUri(alias, dsn))) in s.db
  {
    hide Places, Holders;
  }

  /** A step rebinds a name exactly when it stores a connection registered under that name. */
  lemma RebindsIff(uri: string -> string, s: State, a: Action, name: string)
    requires Inv(uri, s) && Enabled(s, a) && NameKey(name) in s.db
    ensures var t := Apply(uri, s, a);
      NameKey(name) in t.db &&
      (t.db[NameKey(name)] != s.db[NameKey(name)]
       <==> (a.Store? && s.threads[a.i].call.AddUri? && Alias(s.threads[a.i].call) == name &&
             DsnKey(s.threads[a.i].call.dsn) !in s.db))
  {
    hide Holders, Found;
    if a.Store? {
      var conn := s.threads[a.i].phase.conn;
      HoldersUpdate(s.threads, a.i, s.threads[a.i], conn);
      assert Places(s, conn) <= 1;
      assert InPool(s, s.db[NameKey(name)]);
    }
  }

  /** Storing for this call binds the DSN of `name`, or its name key. */
  predicate StoresFor(uri: string -> string, s: State, call: Call, name: string) {
    DsnKey(DsnOf(uri, call)) !in s.db && (DsnOf(uri, call) == uri(name) || (call.AddUri? && Alias(call) == name))
  }

  /** What GetFromPool returns after any step: the connection just stored if that was for the
      name's DSN or under the name and the DSN had none, otherwise what it returned before. */
  lemma LookupAfter(uri: string -> string, s: State, a: Action, name: string)
    requires Enabled(s, a)
    ensures Lookup(uri, Apply(uri, s, a).db, name) ==
            if a.Store? && DsnKey(uri(name)) !in s.db && StoresFor(uri, s, s.threads[a.i].call, name)
            then Some(s.threads[a.i].phase.conn) else Lookup(uri, s.db, name)
  {
    hide Found;
  }

  /** A step changes what GetFromPool returns for a name exactly when the name was found under
      its own key only and the step stores a connection for its DSN or under that key. */
  lemma LookupChangesIff(uri: string -> string, s: State, a: Action, name: string)
    requires Inv(uri, s) && Enabled(s, a) && Lookup(uri, s.db, name).Some?
    ensures var t := Apply(uri, s, a);
      Lookup(uri, t.db, name).Some? &&
      (Lookup(uri, t.db, name) != Lookup(uri, s.db, name)
       <==> DsnKey(uri(name)) !in s.db && a.Store? && StoresFor(uri, s, s.threads[a.i].call, name))
  {
    hide Holders, Found;
    if a.Store? {
      var conn := s.threads[a.i].phase.conn;
      HoldersUpdate(s.threads, a.i, s.threads[a.i], conn);
      assert Places(s, conn) <= 1;
      if DsnKey(uri(name)) !in s.db {
        assert InPool(s, s.db[NameKey(name)]);
      }
    }
  }

  const FIRST := AddUri("x", "one")
  const SECOND := AddUri("x", "two")

  /** Two racing calls, in the given phases, with the connections opened so far. */
  function Racing(first: Phase, second: Phase, everOpened: map<Conn, string>): State {
    State(map[], [Thread(FIRST, first), Thread(SECOND, second)], everOpened, {})
  }

  /** Neither call finds the other's connection. */
  lemma RaceOpens(uri: string -> string)
    ensures Enabled(INITIAL, Spawn(FIRST))
    ensures Apply(uri, Apply(uri, INITIAL, Spawn(FIRST)), Spawn(SECOND)) == Racing(Start, Start, map[])
    ensures Apply(uri, Racing(Start, Start, map[]), Check(0)) == Racing(Opening, Start, map[])
    ensures Apply(uri, Racing(Opening, Start, map[]), Check(1)) == Racing(Opening, Opening, map[])
  {
  }

  lemma RaceConnects(uri: string -> string)
    ensures Apply(uri, Racing(Opening, Opening, map[]), Open(0, 1)) == Racing(Pinging(1), Opening, map[1 := "one"])
    ensures Apply(uri, Racing(Pinging(1), Opening, map[1 := "one"]), Open(1, 2)) ==
            Racing(Pinging(1), Pinging(2), map[1 := "one", 2 := "two"])
  {
  }

  lemma RaceHolds(uri: string -> string)
    ensures var both := map[1 := "one", 2 := "two"];
      && Apply(uri, Racing(Pinging(1), Pinging(2), both), PingOk(0)) == Racing(Holding(1), Pinging(2), both)
      && Apply(uri, Racing(Holding(1), Pinging(2), both), PingOk(1)) == Racing(Holding(1), Holding(2), both)
  {
  }

  /** Two calls that race to register one name for two DSNs: the second overwrites the first. */
  lemma NameRebinds(uri: string -> string)
    ensures exists before, last, s, t ::
      && Run(uri, INITIAL, before) == Some(s) && Enabled(s, last) && t == Apply(uri, s, last)
      && NameKey("x") in s.db && NameKey("x") in t.db && s.db[NameKey("x")] != t.db[NameKey("x")]
  {
    var both := map[1 := "one", 2 := "two"];
    var s8 := Racing(Holding(1), Holding(2), both);
    var s9, r8 := Apply(uri, s8, Store(0)), [Store(0)];
    assert Run(uri, s9, []) == Some(s9) && [Store(0)] + [] == r8;
    Then(uri, s8, Store(0), s9, [], s9);
    var before := RaceRun(uri, r8, s9);
    assert Enabled(s9, Store(1)) && s9.db[NameKey("x")] == 1;
    var t := Apply(uri, s9, Store(1));
    assert t.db[NameKey("x")] == 2;
  }

  lemma RaceRun(uri: string -> string, last: seq<Action>, end: State) returns (actions: seq<Action>)
    requires Run(uri, Racing(Holding(1), Holding(2), map[1 := "one", 2 := "two"]), last) == Some(end)
    ensures Run(uri, INITIAL, actions) == Some(end)
  {
    hide Run, Apply;
    var one, both := map[1 := "one"], map[1 := "one", 2 := "two"];
    RaceHolds(uri);
    RaceConnects(uri);
    RaceOpens(uri);
    actions := last;
    Then(uri, Racing(Holding(1), Pinging(2), both), PingOk(1), Racing(Holding(1), Holding(2), both), actions, end);
    actions := [PingOk(1)] + actions;
    Then(uri, Racing(Pinging(1), Pinging(2), both), PingOk(0), Racing(Holding(1), Pinging(2), both), actions, end);
    actions := [PingOk(0)] + actions;
    Then(uri, Racing(Pinging(1), Opening, one), Open(1, 2), Racing(Pinging(1), Pinging(2), both), actions, end);
    actions := [Open(1, 2)] + actions;
    Then(uri, Racing(Opening, Opening, map[]), Open(0, 1), Racing(Pinging(1), Opening, one), actions, end);
    actions := [Open(0, 1)] + actions;
    Then(uri, Racing(Opening, Start, map[]), Check(1), Racing(Opening, Opening, map[]), actions, end);
    actions := [Check(1)] + actions;
    Then(uri, Racing(Start, Start, map[]), Check(0), Racing(Opening, Start, map[]), actions, end);
    actions := [Check(0)] + actions;
    Then(uri, Apply(uri, INITIAL, Spawn(FIRST)), Spawn(SECOND), Racing(Start, Start, map[]), actions, end);
    actions := [Spawn(SECOND)] + actions;
    Then(uri, INITIAL, Spawn(FIRST), Apply(uri, INITIAL, Spawn(FIRST)), actions, end);
    actions := [Spawn(FIRST)] + actions;
  }

  lemma Then(uri: string -> string, s: State, a: Action, next: State, rest: seq<Action>, end: State)
    requires Enabled(s, a) && Apply(uri, s, a) == next && Run(uri, next, rest) == Some(end)
    ensures Run(uri, s, [a] + rest) == Some(end)
  {
    assert ([a] + rest)[1..] == rest;
  }

  /** Registering a second name for a known DSN returns its connection but binds no name. */
  lemma SecondNameUnbound(uri: string -> string, s: State, i: nat, alias: string, dsn: string)
    requires Inv(uri, s) && Checks(s, Check(i), alias, dsn) && DsnKey(dsn) in s.db
    requires NameKey(Alias(AddUri(alias, dsn))) !in s.db
    ensures var t := Apply(uri, s, Check(i));
      t.threads[i].phase == Done(Some(s.db[DsnKey(dsn)])) && NameKey(Alias(AddUri(alias, dsn))) !in t.db
  {
  }

  /** Two calls after the first has stored: one for its name and a DSN not in the pool gets its
      connection, to another DSN; one for its DSN and another name gets it and binds no name. */
  lemma NamesMissed(uri: string -> string)
    ensures exists actions, s ::
      && Run(uri, INITIAL, actions) == Some(s) && |s.threads| == 4
      && s.threads[2] == Thread(AddUri("x", "three"), Done(Some(1))) && 1 in s.everOpened && s.everOpened[1] == "one"
      && s.threads[3] == Thread(AddUri("y", "one"), Done(Some(1))) && NameKey("y") !in s.db
  {
    hide Run;
    var s8 := Racing(Holding(1), Holding(2), map[1 := "one", 2 := "two"]);
    var s9 := Apply(uri, s8, Store(0));
    var s10 := Apply(uri, s9, Spawn(AddUri("x", "three")));
    var s11 := Apply(uri, s10, Check(2));
    var s12 := Apply(uri, s11, Spawn(AddUri("y", "one")));
    var s13 := Apply(uri, s12, Check(3));
    var last: seq<Action> := [];
    RunNone(uri, s13);
    Then(uri, s12, Check(3), s13, last, s13);
    last := [Check(3)] + last;
    Then(uri, s11, Spawn(AddUri("y", "one")), s12, last, s13);
    last := [Spawn(AddUri("y", "one"))] + last;
    Then(uri, s10, Check(2), s11, last, s13);
    last := [Check(2)] + last;
    Then(uri, s9, Spawn(AddUri("x", "three")), s10, last, s13);
    last := [Spawn(AddUri("x", "three"))] + last;
    Then(uri, s8, Store(0), s9, last, s13);
    last := [Store(0)] + last;
    var actions := RaceRun(uri, last, s13);
    assert s13.threads[2] == Thread(AddUri("x", "three"), Done(Some(1)));
  }

  lemma RunNone(uri: string -> string, s: State)
    ensures Run(uri, s, []) == Some(s)
  {
  }
}
