/** Login sessions: expired lazily, swept periodically, kept in a file across restarts. */
module Sessions {
  import opened Prelude

  type Token = string

  datatype Session = Session(token: Token, createdAt: int, expiresAt: int)

  type Table = map<Token, Session>

  /** The store's memory and, unless it is memory-only, the sessions in its file. */
  datatype State = State(sessions: Table, file: Option<Table>)

  datatype Op = Create(token: Token, ttl: int) | Check(token: Token) | Delete(token: Token) | Cleanup | Restart

  /** One call: what, at what time, and whether a write to disk would succeed. */
  datatype Call = Call(op: Op, at: int, diskOk: bool)

  predicate Expired(s: Session, now: int) {
    now > s.expiresAt
  }

  function Live(t: Table, now: int): Table {
    map k | k in t && !Expired(t[k], now) :: t[k]
  }

  function Persist(s: State, diskOk: bool): State {
    if s.file.None? || !diskOk then s else s.(file := Some(s.sessions))
  }

  function DeleteStep(s: State, token: Token, diskOk: bool): State {
    if token in s.sessions then Persist(s.(sessions := s.sessions - {token}), diskOk) else s
  }

  /** What a call leaves behind. */
  function Step(s: State, c: Call): State {
    match c.op
    case Create(token, ttl) => Persist(s.(sessions := s.sessions[token := Session(token, c.at, c.at + ttl)]), c.diskOk)
    case Check(token) =>
      if token in s.sessions && Expired(s.sessions[token], c.at) then DeleteStep(s, token, c.diskOk) else s
    case Delete(token) => DeleteStep(s, token, c.diskOk)
    case Cleanup =>
      var live := Live(s.sessions, c.at);
      if live == s.sessions then s else Persist(s.(sessions := live), c.diskOk)
    case Restart => s.(sessions := if s.file.Some? then Live(s.file.value, c.at) - {""} else map[])
  }

  function Answer(s: State, token: Token, now: int): bool {
    token in s.sessions && !Expired(s.sessions[token], now)
  }

  function Run(s: State, calls: seq<Call>): State
    decreases |calls|
  {
    if calls == [] then s else Step(Run(s, calls[..|calls| - 1]), calls[|calls| - 1])
  }

  // ---------------------------------------------------------------- the simple store it refines

  /** Which tokens were created and not deleted, and when they expire; time and restarts change nothing. */
  type Granted = map<Token, int>

  function SpecStep(g: Granted, c: Call): Granted {
    match c.op
    case Create(token, ttl) => g[token := c.at + ttl]
    case Delete(token) => g - {token}
    case _ => g
  }

  function SpecRun(calls: seq<Call>): Granted
    decreases |calls|
  {
    if calls == [] then map[] else SpecStep(SpecRun(calls[..|calls| - 1]), calls[|calls| - 1])
  }

  predicate SpecAnswer(g: Granted, token: Token, now: int) {
    token in g && now <= g[token]
  }

  /** The clock never goes back and tokens are not empty. */
  ghost predicate Orderly(calls: seq<Call>) {
    && (forall i, j :: 0 <= i < j < |calls| ==> calls[i].at <= calls[j].at)
    && (forall i :: 0 <= i < |calls| && calls[i].op.Create? ==> calls[i].op.token != "")
  }

  /** Restarts need a file all of whose writes succeed; without restarts nothing is asked of the disk. */
  ghost predicate RestartsAreBacked(s: State, calls: seq<Call>) {
    (forall i :: 0 <= i < |calls| ==> !calls[i].op.Restart?) ||
    (s.file.Some? && forall i :: 0 <= i < |calls| ==> calls[i].diskOk)
  }

  ghost predicate Represents(t: Table, g: Granted, now: int) {
    && (forall k :: k in t ==> k in g && t[k].token == k && t[k].expiresAt == g[k] && k != "")
    && (forall k :: k in g && now <= g[k] ==> k in t)
  }

  /** The live parts of file and memory agree. */
  ghost predicate FileAgrees(s: State, now: int) {
    s.file.Some? && Live(s.file.value, now) == Live(s.sessions, now) && "" !in s.file.value
  }

  lemma StepRepresents(s: State, g: Granted, before: int, c: Call)
    requires Represents(s.sessions, g, before) && before <= c.at
    requires c.op.Create? ==> c.op.token != ""
    requires c.op.Restart? ==> FileAgrees(s, before)
    ensures Represents(Step(s, c).sessions, SpecStep(g, c), c.at)
  {
    if c.op.Restart? {
      LiveLater(s.file.value, before, c.at);
      LiveLater(s.sessions, before, c.at);
      assert Step(s, c).sessions == Live(s.sessions, c.at);
      LiveRepresents(s.sessions, g, before, c.at);
    } else if c.op.Cleanup? {
      LiveRepresents(s.sessions, g, before, c.at);
    }
  }

  lemma LiveRepresents(t: Table, g: Granted, before: int, now: int)
    requires Represents(t, g, before) && before <= now
    ensures Represents(Live(t, now), g, now)
  {
  }

  lemma StepKeepsFile(s: State, g: Granted, before: int, c: Call)
    requires Represents(s.sessions, g, before) && before <= c.at
    requires c.op.Create? ==> c.op.token != ""
    requires FileAgrees(s, before) && c.diskOk
    ensures FileAgrees(Step(s, c), c.at)
  {
    LiveLater(s.file.value, before, c.at);
    LiveLater(s.sessions, before, c.at);
    if c.op.Restart? {
      assert Live(s.file.value, c.at) - {""} == Live(s.file.value, c.at);
      LiveLater(s.file.value, c.at, c.at);
    }
  }

  lemma LiveLater(t: Table, early: int, late: int)
    requires early <= late
    ensures Live(Live(t, early), late) == Live(t, late)
  {
  }

  ghost predicate Durable(s: State, calls: seq<Call>) {
    s.file.Some? && forall i :: 0 <= i < |calls| ==> calls[i].diskOk
  }

  lemma {:induction false} RunRefines(file: Option<Table>, calls: seq<Call>, now: int)
    requires Orderly(calls) && RestartsAreBacked(State(map[], file), calls)
    requires file.Some? ==> file.value == map[]
    requires calls != [] ==> calls[|calls| - 1].at <= now
    ensures var s := Run(State(map[], file), calls);
            && Represents(s.sessions, SpecRun(calls), now)
            && (Durable(State(map[], file), calls) ==> FileAgrees(s, now))
            && (s.file.Some? <==> file.Some?)
    decreases |calls|
  {
    var s0 := State(map[], file);
    if calls != [] {
      var init, c := calls[..|calls| - 1], calls[|calls| - 1];
      RunRefines(file, init, c.at);
      StepRepresents(Run(s0, init), SpecRun(init), c.at, c);
      if Durable(s0, calls) {
        StepKeepsFile(Run(s0, init), SpecRun(init), c.at, c);
      }
      Later(Run(s0, calls), SpecRun(calls), c.at, now);
    }
  }

  lemma Later(s: State, g: Granted, early: int, late: int)
    requires early <= late && Represents(s.sessions, g, early)
    ensures Represents(s.sessions, g, late)
    ensures FileAgrees(s, early) ==> FileAgrees(s, late)
  {
    LiveLater(s.sessions, early, late);
    if s.file.Some? {
      LiveLater(s.file.value, early, late);
    }
  }

  /**
   Whatever calls came before, a token is valid at a later time exactly when it
   was created, not deleted since, and has not expired.
   */
  lemma ValidityRefines(file: Option<Table>, calls: seq<Call>, token: Token, now: int)
    requires Orderly(calls) && RestartsAreBacked(State(map[], file), calls)
    requires file.Some? ==> file.value == map[]
    requires calls != [] ==> calls[|calls| - 1].at <= now
    ensures Answer(Run(State(map[], file), calls), token, now) == SpecAnswer(SpecRun(calls), token, now)
  {
    RunRefines(file, calls, now);
  }

  /** With every write accepted, a restart at any moment would bring back exactly the live sessions. */
  lemma FileKeepsTheLiveSessions(file: Option<Table>, calls: seq<Call>, now: int)
    requires Orderly(calls) && Durable(State(map[], file), calls) && file == Some(map[])
    requires calls != [] ==> calls[|calls| - 1].at <= now
    ensures var s := Run(State(map[], file), calls);
            s.file.Some? && Live(s.file.value, now) == Live(s.sessions, now) == Step(s, Call(Restart, now, true)).sessions
  {
    RunRefines(file, calls, now);
  }

  /** The calls that grant or revoke; the rest is housekeeping. */
  function Essential(calls: seq<Call>): seq<Call>
    decreases |calls|
  {
    if calls == [] then []
    else
      var init, c := Essential(calls[..|calls| - 1]), calls[|calls| - 1];
      if c.op.Create? || c.op.Delete? then init + [c] else init
  }

  lemma {:induction false} HousekeepingGrantsNothing(calls: seq<Call>)
    ensures SpecRun(Essential(calls)) == SpecRun(calls)
    decreases |calls|
  {
    if calls != [] {
      var init, c := calls[..|calls| - 1], calls[|calls| - 1];
      HousekeepingGrantsNothing(init);
      assert (Essential(init) + [c])[..|Essential(init)|] == Essential(init);
    }
  }

  lemma {:induction false} EssentialIsOrderly(calls: seq<Call>)
    requires Orderly(calls)
    ensures Orderly(Essential(calls))
    ensures forall c :: c in Essential(calls) ==> c in calls && !c.op.Restart?
    decreases |calls|
  {
    if calls != [] {
      var init, last := calls[..|calls| - 1], calls[|calls| - 1];
      LastOfOrderly(calls);
      EssentialIsOrderly(init);
      OrderlyOneMore(Essential(init), last);
    }
  }

  lemma LastOfOrderly(calls: seq<Call>)
    requires Orderly(calls) && calls != []
    ensures var init, last := calls[..|calls| - 1], calls[|calls| - 1];
            && Orderly(init) && (last.op.Create? ==> last.op.token != "")
            && (forall c :: c in init ==> c in calls && c.at <= last.at)
  {
  }

  lemma OrderlyOneMore(calls: seq<Call>, c: Call)
    requires Orderly(calls) && (forall d :: d in calls ==> d.at <= c.at) && (c.op.Create? ==> c.op.token != "")
    ensures Orderly(calls + [c])
  {
  }

  /** Checks, sweeps and restarts, wherever they are put, change no later answer. */
  lemma HousekeepingIsInvisible(file: Option<Table>, calls: seq<Call>, token: Token, now: int)
    requires Orderly(calls) && RestartsAreBacked(State(map[], file), calls)
    requires file.Some? ==> file.value == map[]
    requires calls != [] ==> calls[|calls| - 1].at <= now
    ensures Answer(Run(State(map[], file), calls), token, now) ==
            Answer(Run(State(map[], file), Essential(calls)), token, now)
  {
    var es := Essential(calls);
    EssentialIsOrderly(calls);
    HousekeepingGrantsNothing(calls);
    if es != [] {
      assert es[|es| - 1] in calls;
    }
    ValidityRefines(file, calls, token, now);
    ValidityRefines(file, es, token, now);
  }

  // ---------------------------------------------------------------- the store

  /** The sessions of a file's list by token; of repeated tokens the last counts. */
  function ByToken(list: seq<Session>): Table
    decreases |list|
  {
    if list == [] then map[] else ByToken(list[..|list| - 1])[list[|list| - 1].token := list[|list| - 1]]
  }

  ghost predicate OneEach(list: seq<Session>) {
    forall i, j :: 0 <= i < j < |list| ==> list[i].token != list[j].token
  }

  class SessionFile {
    var list: seq<Session>

    constructor ()
      ensures list == []
    {
      list := [];
    }
  }

  class SessionStore {
    var sessions: Table
    const file: SessionFile?

    ghost predicate Valid()
      reads this, file
    {
      && (forall k :: k in sessions ==> sessions[k].token == k)
      && (file != null ==> OneEach(file.list))
    }

    ghost function View(): State
      reads this, file
    {
      State(sessions, if file == null then None else Some(ByToken(file.list)))
    }

    constructor (file: SessionFile?, now: int)
      requires file != null ==> OneEach(file.list)
      ensures Valid() && this.file == file
      ensures View() == Step(State(map[], if file == null then None else Some(ByToken(file.list))), Call(Restart, now, true))
    {
      this.file := file;
      sessions := map[];
      new;
      Load(now);
    }

    /** Reads the file into the empty table, leaving out nameless and expired sessions. */
    method Load(now: int)
      requires Valid() && sessions == map[]
      modifies this
      ensures Valid() && View() == Step(old(View()), Call(Restart, now, true))
    {
      if file == null {
        return;
      }
      var i := 0;
      while i < |file.list|
        invariant 0 <= i <= |file.list|
        invariant sessions == Live(ByToken(file.list[..i]), now) - {""}
        invariant Valid()
      {
        var sess := file.list[i];
        LiveOneMore(file.list, i, now);
        if sess.token != "" && !(now > sess.expiresAt) {
          sessions := sessions[sess.token := sess];
        }
        i := i + 1;
      }
      assert file.list[..i] == file.list;
    }

    /** Rewrites the file with all sessions in memory; a failed write leaves the file as it was. */
    method PersistLocked(diskOk: bool)
      requires Valid()
      modifies file
      ensures Valid() && View() == Persist(old(View()), diskOk)
    {
      if file == null {
        return;
      }
      var list := [];
      var todo := sessions.Keys;
      while todo != {}
        invariant todo <= sessions.Keys
        invariant file.list == old(file.list)
        invariant OneEach(list) && ByToken(list) == sessions - todo
        invariant forall i :: 0 <= i < |list| ==> list[i].token in sessions && list[i].token !in todo
      {
        var token :| token in todo;
        assert (list + [sessions[token]])[..|list|] == list;
        list := list + [sessions[token]];
        todo := todo - {token};
      }
      assert ByToken(list) == sessions;
      if diskOk {
        file.list := list;
      }
    }

    /** `token` is 32 random bytes in hex. */
    method Create(token: Token, ttl: int, now: int, diskOk: bool) returns (sess: Session)
      requires Valid()
      modifies this`sessions, file
      ensures Valid() && View() == Step(old(View()), Call(Op.Create(token, ttl), now, diskOk))
      ensures sess == Session(token, now, now + ttl)
    {
      sess := Session(token, now, now + ttl);
      sessions := sessions[token := sess];
      PersistLocked(diskOk);
    }

    method IsValid(token: Token, now: int, diskOk: bool) returns (ok: bool)
      requires Valid()
      modifies this`sessions, file
      ensures Valid() && View() == Step(old(View()), Call(Check(token), now, diskOk))
      ensures ok == Answer(old(View()), token, now)
    {
      if token !in sessions {
        return false;
      }
      if now > sessions[token].expiresAt {
        Delete(token, diskOk);
        return false;
      }
      ok := true;
    }

    method Delete(token: Token, diskOk: bool)
      requires Valid()
      modifies this`sessions, file
      ensures Valid() && View() == DeleteStep(old(View()), token, diskOk)
    {
      if token in sessions {
        sessions := sessions - {token};
        PersistLocked(diskOk);
      }
    }

    method Cleanup(now: int, diskOk: bool)
      requires Valid()
      modifies this`sessions, file
      ensures Valid() && View() == Step(old(View()), Call(Op.Cleanup, now, diskOk))
    {
      var changed := false;
      var todo := sessions.Keys;
      ghost var all := sessions;
      while todo != {}
        invariant todo <= all.Keys
        invariant forall k :: k in sessions ==> k in all && sessions[k] == all[k]
        invariant forall k :: k in all && (k in todo || !Expired(all[k], now)) ==> k in sessions
        invariant forall k :: k in sessions && k !in todo ==> !Expired(all[k], now)
        invariant changed <==> sessions != all
        invariant file != null ==> file.list == old(file.list)
      {
        var token :| token in todo;
        if now > sessions[token].expiresAt {
          sessions := sessions - {token};
          changed := true;
          assert token in all && token !in sessions;
        }
        todo := todo - {token};
      }
      assert sessions == Live(all, now);
      if changed {
        PersistLocked(diskOk);
      }
    }
  }

  lemma LiveOneMore(list: seq<Session>, i: nat, now: int)
    requires i < |list| && OneEach(list)
    ensures var sess, live := list[i], Live(ByToken(list[..i]), now) - {""};
            Live(ByToken(list[..i + 1]), now) - {""} ==
            if sess.token != "" && !(now > sess.expiresAt) then live[sess.token := sess] else live
  {
    assert list[..i + 1][..i] == list[..i];
    NewToken(list, i);
  }

  lemma NewToken(list: seq<Session>, i: nat)
    requires i < |list| && OneEach(list)
    ensures list[i].token !in ByToken(list[..i])
  {
    TokensOf(list[..i], list[i].token);
  }

  lemma {:induction false} TokensOf(list: seq<Session>, token: Token)
    requires forall i :: 0 <= i < |list| ==> list[i].token != token
    ensures token !in ByToken(list)
    decreases |list|
  {
    if list != [] {
      TokensOf(list[..|list| - 1], token);
    }
  }
}
