/** Any number of `Prepare` calls at once: looking up and storing are atomic, preparing is not
    guarded. */
module StmtCacheRuns {
  import opened Text
  import opened StmtCache

  datatype Phase = Start | Preparing | Storing(statement: Statement) | Done(result: Option<Statement>)
  datatype Thread = Thread(call: Call, phase: Phase)
  datatype State = State(entries: Entries, threads: seq<Thread>)

  const INITIAL := State(map[], [])

  datatype Action =
    | Spawn(call: Call)
    | Check(i: nat)
    | PrepareOk(i: nat, id: nat)
    | PrepareFails(i: nat)
    | Store(i: nat)

  predicate Enabled(s: State, a: Action) {
    match a
    case Spawn(_) => true
    case Check(i) => i < |s.threads| && s.threads[i].phase == Start
    case PrepareOk(i, _) => i < |s.threads| && s.threads[i].phase == Preparing
    case PrepareFails(i) => i < |s.threads| && s.threads[i].phase == Preparing
    case Store(i) => i < |s.threads| && s.threads[i].phase.Storing?
  }

  function Move(s: State, i: nat, phase: Phase): State
    requires i < |s.threads|
  {
    s.(threads := s.threads[i := s.threads[i].(phase := phase)])
  }

  function Apply(cache: bool, s: State, a: Action): State
    requires Enabled(s, a)
  {
    match a
    case Spawn(call) => s.(threads := s.threads + [Thread(call, Start)])
    case Check(i) =>
      var call := s.threads[i].call;
      Move(s, i, if Cached(cache, call) && call.sql in s.entries then Done(Some(s.entries[call.sql])) else Preparing)
    case PrepareOk(i, id) =>
      var call := s.threads[i].call;
      Move(s, i, if Cached(cache, call) then Storing(Fresh(call, id)) else Done(Some(Fresh(call, id))))
    case PrepareFails(i) => Move(s, i, Done(None))
    case Store(i) =>
      var statement := s.threads[i].phase.statement;
      Move(s, i, Done(Some(statement))).(entries := s.entries[s.threads[i].call.sql := statement])
  }

  function Run(cache: bool, s: State, actions: seq<Action>): Option<State>
    decreases |actions|
  {
    if actions == [] then Some(s)
    else if !Enabled(s, actions[0]) then None
    else Run(cache, Apply(cache, s, actions[0]), actions[1..])
  }

  /** The handles that calls outside transactions pass. */
  ghost predicate Handle(dbs: set<nat>, call: Call) { call.tx == None ==> call.db in dbs }

  /** What a call may return: a statement of its own text, on its own transaction, or on one of
      the handles; its own handle when the cache is off. */
  ghost predicate ThreadOk(cache: bool, dbs: set<nat>, t: Thread) {
    && Handle(dbs, t.call)
    && match t.phase
       case Storing(statement) => Cached(cache, t.call) && statement == Fresh(t.call, statement.id)
       case Done(Some(statement)) =>
         && statement.sql == t.call.sql
         && (if Cached(cache, t.call) then statement.source.OnDb? && statement.source.db in dbs
             else statement.source == SourceOf(t.call))
       case _ => true
  }

  ghost predicate EntryOk(dbs: set<nat>, sql: string, statement: Statement) {
    statement.sql == sql && statement.source.OnDb? && statement.source.db in dbs
  }

  ghost predicate Inv(cache: bool, dbs: set<nat>, s: State) {
    && (forall sql :: sql in s.entries ==> EntryOk(dbs, sql, s.entries[sql]))
    && forall t :: t in s.threads ==> ThreadOk(cache, dbs, t)
  }

  ghost predicate Uses(dbs: set<nat>, actions: seq<Action>) {
    forall a :: a in actions && a.Spawn? ==> Handle(dbs, a.call)
  }

  lemma StepInv(cache: bool, dbs: set<nat>, s: State, a: Action)
    requires Inv(cache, dbs, s) && Enabled(s, a) && (a.Spawn? ==> Handle(dbs, a.call))
    ensures Inv(cache, dbs, Apply(cache, s, a))
  {
    var after := Apply(cache, s, a);
    if !a.Spawn? {
      assert ThreadOk(cache, dbs, s.threads[a.i]);
      assert ThreadOk(cache, dbs, after.threads[a.i]);
    }
    forall t | t in after.threads
      ensures ThreadOk(cache, dbs, t)
    {
      if t !in s.threads && !a.Spawn? {
        assert t == after.threads[a.i];
      }
    }
  }

  lemma {:induction false} RunInv(cache: bool, dbs: set<nat>, s: State, actions: seq<Action>)
    requires Inv(cache, dbs, s) && Run(cache, s, actions).Some? && Uses(dbs, actions)
    ensures Inv(cache, dbs, Run(cache, s, actions).value)
    decreases |actions|
  {
    hide Inv, Apply, Enabled, Handle;
    if actions != [] {
      assert actions[0] in actions;
      StepInv(cache, dbs, s, actions[0]);
      assert forall a :: a in actions[1..] ==> a in actions;
      RunInv(cache, dbs, Apply(cache, s, actions[0]), actions[1..]);
    }
  }

  /** In every interleaving each entry was prepared from exactly its key, outside transactions. */
  lemma EntriesMatchKeys(cache: bool, dbs: set<nat>, actions: seq<Action>, sql: string)
    requires Run(cache, INITIAL, actions).Some? && Uses(dbs, actions)
    requires sql in Run(cache, INITIAL, actions).value.entries
    ensures var statement := Run(cache, INITIAL, actions).value.entries[sql];
      && statement.source.OnDb? && statement.source.db in dbs
      && statement == Fresh(Prepare(statement.source.db, None, sql), statement.id)
  {
    hide Run;
    assert Inv(cache, dbs, INITIAL);
    RunInv(cache, dbs, INITIAL, actions);
  }

  /** Every cached call that has succeeded has left an entry for its text. */
  ghost predicate Remembered(cache: bool, s: State) {
    forall t :: t in s.threads && Cached(cache, t.call) && t.phase.Done? && t.phase.result.Some? ==> t.call.sql in s.entries
  }

  lemma StepRemembered(cache: bool, s: State, a: Action)
    requires Remembered(cache, s) && Enabled(s, a)
    ensures Remembered(cache, Apply(cache, s, a))
  {
    var after := Apply(cache, s, a);
    forall t | t in after.threads && Cached(cache, t.call) && t.phase.Done? && t.phase.result.Some?
      ensures t.call.sql in after.entries
    {
      if t !in s.threads && !a.Spawn? {
        assert t == after.threads[a.i];
      }
    }
  }

  lemma {:induction false} RunRemembered(cache: bool, s: State, actions: seq<Action>)
    requires Remembered(cache, s) && Run(cache, s, actions).Some?
    ensures Remembered(cache, Run(cache, s, actions).value)
    decreases |actions|
  {
    hide Remembered, Apply, Enabled;
    if actions != [] {
      StepRemembered(cache, s, actions[0]);
      RunRemembered(cache, Apply(cache, s, actions[0]), actions[1..]);
    }
  }

  /** The call has not begun, or has succeeded. */
  predicate Served(s: State, i: nat, call: Call) {
    i < |s.threads| && s.threads[i].call == call &&
    (s.threads[i].phase == Start || (s.threads[i].phase.Done? && s.threads[i].phase.result.Some?))
  }

  lemma StepServed(cache: bool, s: State, a: Action, i: nat, call: Call)
    requires Enabled(s, a) && Cached(cache, call) && call.sql in s.entries && Served(s, i, call)
    ensures call.sql in Apply(cache, s, a).entries && Served(Apply(cache, s, a), i, call)
  {
  }

  lemma {:induction false} RunServed(cache: bool, s: State, actions: seq<Action>, i: nat, call: Call)
    requires Run(cache, s, actions).Some? && Cached(cache, call) && call.sql in s.entries && Served(s, i, call)
    ensures Served(Run(cache, s, actions).value, i, call)
    decreases |actions|
  {
    hide Served, Apply, Enabled, Cached;
    if actions != [] {
      StepServed(cache, s, actions[0], i, call);
      RunServed(cache, Apply(cache, s, actions[0]), actions[1..], i, call);
    }
  }

  /** Once a cached call has succeeded, a cached call with the same text that has not begun will
      never prepare anything, whatever the others do: if it returns, it returns a statement. */
  lemma PreparedOnce(cache: bool, before: seq<Action>, after: seq<Action>, first: Thread, i: nat, call: Call)
    requires Run(cache, INITIAL, before).Some? && Run(cache, Run(cache, INITIAL, before).value, after).Some?
    requires first in Run(cache, INITIAL, before).value.threads && first.phase.Done? && first.phase.result.Some?
    requires Cached(cache, first.call) && Cached(cache, call) && call.sql == first.call.sql
    requires Served(Run(cache, INITIAL, before).value, i, call)
    ensures Served(Run(cache, Run(cache, INITIAL, before).value, after).value, i, call)
  {
    hide Run, Served, Cached;
    RunRemembered(cache, INITIAL, before);
    RunServed(cache, Run(cache, INITIAL, before).value, after, i, call);
  }

  /** The call got what preparing afresh would have given it, up to identity. */
  predicate AsFresh(t: Thread) {
    match t.phase case Done(Some(statement)) => statement == Fresh(t.call, statement.id) case _ => true
  }

  ghost predicate AlwaysAsFresh(cache: bool, dbs: set<nat>) {
    forall actions, s, t :: Run(cache, INITIAL, actions) == Some(s) && Uses(dbs, actions) && t in s.threads ==> AsFresh(t)
  }

  /** Over all interleavings the cache is invisible exactly when it is off or calls outside
      transactions pass at most one handle. */
  lemma InvisibleIff(cache: bool, dbs: set<nat>)
    ensures AlwaysAsFresh(cache, dbs) <==> (!cache || forall x, y :: x in dbs && y in dbs ==> x == y)
  {
    if !cache || forall x, y :: x in dbs && y in dbs ==> x == y {
      forall actions, s, t | Run(cache, INITIAL, actions) == Some(s) && Uses(dbs, actions) && t in s.threads
        ensures AsFresh(t)
      {
        Invisible(cache, dbs, actions, t);
      }
    } else {
      var x, y :| x in dbs && y in dbs && x != y;
      OtherHandle(dbs, x, y);
    }
  }

  lemma Invisible(cache: bool, dbs: set<nat>, actions: seq<Action>, t: Thread)
    requires Run(cache, INITIAL, actions).Some? && Uses(dbs, actions) && t in Run(cache, INITIAL, actions).value.threads
    requires !cache || forall x, y :: x in dbs && y in dbs ==> x == y
    ensures AsFresh(t)
  {
    hide Run, Uses;
    assert Inv(cache, dbs, INITIAL);
    RunInv(cache, dbs, INITIAL, actions);
    assert ThreadOk(cache, dbs, t);
  }

  lemma Then(s: State, a: Action, next: State, rest: seq<Action>, end: State)
    requires Enabled(s, a) && Apply(true, s, a) == next && Run(true, next, rest) == Some(end)
    ensures Run(true, s, [a] + rest) == Some(end)
  {
    assert ([a] + rest)[1..] == rest;
  }

  /** A statement prepared on one handle is returned to a call that passed another. */
  lemma OtherHandle(dbs: set<nat>, x: nat, y: nat)
    requires x in dbs && y in dbs && x != y
    ensures !AlwaysAsFresh(true, dbs)
  {
    hide Run;
    var a, b := Prepare(x, None, ""), Prepare(y, None, "");
    var entry := Fresh(a, 0);
    var s1 := State(map[], [Thread(a, Start)]);
    var s2 := State(map[], [Thread(a, Preparing)]);
    var s3 := State(map[], [Thread(a, Storing(entry))]);
    var s4 := State(map["" := entry], [Thread(a, Done(Some(entry)))]);
    var s5 := State(map["" := entry], [Thread(a, Done(Some(entry))), Thread(b, Start)]);
    var s6 := State(map["" := entry], [Thread(a, Done(Some(entry))), Thread(b, Done(Some(entry)))]);
    var actions: seq<Action> := [];
    RunNone(s6);
    Then(s5, Check(1), s6, actions, s6);
    actions := [Check(1)] + actions;
    Then(s4, Spawn(b), s5, actions, s6);
    actions := [Spawn(b)] + actions;
    Then(s3, Store(0), s4, actions, s6);
    actions := [Store(0)] + actions;
    Then(s2, PrepareOk(0, 0), s3, actions, s6);
    actions := [PrepareOk(0, 0)] + actions;
    Then(s1, Check(0), s2, actions, s6);
    actions := [Check(0)] + actions;
    Then(INITIAL, Spawn(a), s1, actions, s6);
    actions := [Spawn(a)] + actions;
    assert Uses(dbs, actions);
    var t := s6.threads[1];
    assert t in s6.threads && !AsFresh(t);
  }

  lemma RunNone(s: State)
    ensures Run(true, s, []) == Some(s)
  {
  }
}
