/** The desktop application (main.py): the tracked-user list, the start/stop
    switch and the polling loop. The other thread that may stop tracking is a
    flag oracle: `stopAt` is the number of reads of `is_tracking` that still see
    true, every later read sees false. The automation's answers are an oracle as
    well: the n-th `get_user_score` call answers `fetch[n]` (None past the end). */
module MainApp {
  import opened Base
  import opened Text
  import opened Database
  import opened Automation

  /** `[f(u) for u in lines if f(u)]`. */
  function NonEmptyMapped(lines: seq<string>, f: string -> string): seq<string>
  {
    if lines == [] then []
    else
      var u := lines[|lines| - 1];
      NonEmptyMapped(lines[..|lines| - 1], f) + (if f(u) != [] then [f(u)] else [])
  }

  /** The lines of the dialog's text once the whole text is stripped. */
  function Lines(text: string): seq<string>
  {
    Split(Trim(text), '\n')
  }

  /** The names typed into the dialog: each line stripped, the empty ones dropped
      (`[u.strip() for u in usernames if u.strip()]`). */
  function InputNames(text: string): seq<string>
  {
    NonEmptyMapped(Lines(text), Trim)
  }

  lemma {:induction false} NonEmptyMappedMembership(lines: seq<string>, f: string -> string, n: string)
    ensures n in NonEmptyMapped(lines, f) <==> n != [] && exists k :: 0 <= k < |lines| && f(lines[k]) == n
  {
    if lines != [] {
      var init, last := lines[..|lines| - 1], lines[|lines| - 1];
      NonEmptyMappedMembership(init, f, n);
      var tail := if f(last) != [] then [f(last)] else [];
      assert NonEmptyMapped(lines, f) == NonEmptyMapped(init, f) + tail;
      assert n in tail <==> n != [] && f(last) == n;
      if n != [] && exists k :: 0 <= k < |lines| && f(lines[k]) == n {
        var k :| 0 <= k < |lines| && f(lines[k]) == n;
        if k < |init| {
          assert init[k] == lines[k];
        }
      }
      if n in NonEmptyMapped(init, f) {
        var k :| 0 <= k < |init| && f(init[k]) == n;
        assert lines[k] == init[k];
      }
    }
  }

  /** A stripped line without newlines is, when not empty, free of newlines and
      of blanks at either end. */
  lemma TrimmedLine(line: string)
    requires '\n' !in line && Trim(line) != []
    ensures !IsSpace(Trim(line)[0]) && !IsSpace(Trim(line)[|Trim(line)| - 1]) && '\n' !in Trim(line)
  {
    TrimEnds(line);
    TrimSpec(line);
  }

  /** A name comes from the dialog exactly when it is a non-empty stripped line of
      the stripped text; no name is empty, starts or ends with a blank, or holds a
      newline. */
  lemma InputNamesSpec(text: string, n: string)
    ensures n in InputNames(text) <==>
              n != [] && exists k :: 0 <= k < |Lines(text)| && Trim(Lines(text)[k]) == n
    ensures n in InputNames(text) ==> !IsSpace(n[0]) && !IsSpace(n[|n| - 1]) && '\n' !in n
  {
    var lines := Lines(text);
    NonEmptyMappedMembership(lines, Trim, n);
    if n in InputNames(text) {
      var k :| 0 <= k < |lines| && Trim(lines[k]) == n;
      TrimmedLine(lines[k]);
    }
  }

  /** The names `add_users` appends, in order: each one not yet in the list, which
      has grown by the names appended before it. */
  function NewNames(tracked: seq<string>, names: seq<string>): seq<string>
  {
    if names == [] then []
    else
      var prior := NewNames(tracked, names[..|names| - 1]);
      var n := names[|names| - 1];
      if n in tracked + prior then prior else prior + [n]
  }

  /** Appending the new names keeps the list duplicate-free, appends nothing that
      was listed, and leaves every typed name listed afterwards. */
  lemma {:induction false} NewNamesSpec(tracked: seq<string>, names: seq<string>, n: string)
    ensures NoDuplicates(tracked) ==> NoDuplicates(tracked + NewNames(tracked, names))
    ensures n in NewNames(tracked, names) ==> n !in tracked && n in names
    ensures n in tracked + NewNames(tracked, names) <==> n in tracked || n in names
  {
    if names != [] {
      var init := names[..|names| - 1];
      var last := names[|names| - 1];
      NewNamesSpec(tracked, init, n);
      NewNamesSpec(tracked, init, last);
      assert names == init + [last];
      var prior := NewNames(tracked, init);
      if last !in tracked + prior && NoDuplicates(tracked) {
        assert tracked + NewNames(tracked, names) == (tracked + prior) + [last];
      }
    }
  }

  /** One more typed name appends it exactly when it is listed neither before nor
      among the names appended so far. */
  lemma NewNamesSnoc(tracked: seq<string>, names: seq<string>, i: int)
    requires 0 <= i < |names|
    ensures NewNames(tracked, names[..i + 1]) ==
              var prior := NewNames(tracked, names[..i]);
              if names[i] in tracked + prior then prior else prior + [names[i]]
  {
    assert names[..i + 1][..i] == names[..i];
  }

  lemma UsernamesSnoc(users: seq<User>, u: User)
    ensures Usernames(users + [u]) == Usernames(users) + [u.username]
  {
    assert forall i :: 0 <= i < |users| ==> (users + [u])[i] == users[i];
  }

  /** One user checked in a cycle, and what the automation answered. */
  datatype Check = Check(username: string, result: Option<ScoreRecord>)

  /** One pass of the polling loop: the users checked, whether the wait began, and
      the one-second ticks waited. */
  datatype Cycle = Cycle(checks: seq<Check>, waited: bool, ticks: nat)

  /** The flag reads of a cycle, all of which saw true: the loop test, one per
      user checked, and in a cycle that waited the test before the wait and one
      per tick. */
  function TrueReads(c: Cycle): nat
  {
    1 + |c.checks| + if c.waited then 1 + c.ticks else 0
  }

  function SumReads(log: seq<Cycle>): nat
  {
    if log == [] then 0 else SumReads(log[..|log| - 1]) + TrueReads(log[|log| - 1])
  }

  /** The `n`-th answer of `get_user_score`, counting calls from 0; an oracle that has
      run out answers None. */
  function FetchAt(fetch: seq<Option<ScoreRecord>>, n: nat): Option<ScoreRecord>
  {
    if n < |fetch| then fetch[n] else None
  }

  /** The checks carry the oracle's answers from call `from` on, one call per check. */
  predicate Answered(checks: seq<Check>, fetch: seq<Option<ScoreRecord>>, from: nat)
  {
    forall j :: 0 <= j < |checks| ==> checks[j].result == FetchAt(fetch, from + j)
  }

  /** The users checked by a log, cycle after cycle, with their answers. */
  function AllChecks(log: seq<Cycle>): seq<Check>
  {
    if log == [] then [] else AllChecks(log[..|log| - 1]) + log[|log| - 1].checks
  }

  /** The answers of a cycle that were stored, each with the user it was fetched for. */
  function StoredOf(checks: seq<Check>): seq<(string, ScoreRecord)>
  {
    if checks == [] then []
    else
      var c := checks[|checks| - 1];
      StoredOf(checks[..|checks| - 1]) + (if c.result.Some? then [(c.username, c.result.value)] else [])
  }

  function Stored(log: seq<Cycle>): seq<(string, ScoreRecord)>
  {
    if log == [] then [] else Stored(log[..|log| - 1]) + StoredOf(log[|log| - 1].checks)
  }

  /** What a stored score row holds: score, snap flag and time. */
  function RecordOf(e: Entry): ScoreRecord
  {
    ScoreRecord(e.score, e.hasNewSnap, e.timestamp)
  }

  /** The rows `added` hold the answers `stored` one for one, in order: each row
      carries its answer and is filed under the id the user table gives that
      answer's user. */
  ghost predicate FiledUnder(users: seq<User>, added: seq<Entry>, stored: seq<(string, ScoreRecord)>)
  {
    && |added| == |stored|
    && forall k :: 0 <= k < |added| ==>
         RecordOf(added[k]) == stored[k].1 && UserIdOf(users, stored[k].0) == Some(added[k].userId)
  }

  /** The ticks of a full wait: `range(interval)` runs no time for a negative interval. */
  function FullWait(interval: int): nat
  {
    if interval > 0 then interval else 0
  }

  /** A full cycle: every user checked and the whole interval waited. */
  predicate Complete(c: Cycle, userCount: int, interval: int)
  {
    |c.checks| == userCount && c.waited && c.ticks == FullWait(interval)
  }

  /** A cycle checks a prefix of the list in order, waits only after checking
      everyone, and waits at most the interval. */
  predicate Prefix(c: Cycle, users: seq<string>, interval: int)
  {
    && |c.checks| <= |users|
    && (forall j :: 0 <= j < |c.checks| ==> c.checks[j].username == users[j])
    && (c.waited ==> |c.checks| == |users| && c.ticks <= FullWait(interval))
    && (!c.waited ==> c.ticks == 0)
  }

  /** The shape of a polling log: every cycle but the last is full, and every
      cycle checks a prefix of the list in order. */
  predicate LogShape(log: seq<Cycle>, users: seq<string>, interval: int)
  {
    && (forall k :: 0 <= k < |log| - 1 ==> Complete(log[k], |users|, interval))
    && (forall k :: 0 <= k < |log| ==> Prefix(log[k], users, interval))
  }

  /** A cycle whose answers continue the oracle where the log left off extends the
      log's answers. */
  lemma AllChecksSnoc(log: seq<Cycle>, c: Cycle, fetch: seq<Option<ScoreRecord>>)
    requires Answered(AllChecks(log), fetch, 0) && Answered(c.checks, fetch, |AllChecks(log)|)
    ensures AllChecks(log + [c]) == AllChecks(log) + c.checks
    ensures Answered(AllChecks(log + [c]), fetch, 0)
  {
    assert (log + [c])[..|log|] == log;
    var a := AllChecks(log);
    forall k | 0 <= k < |a + c.checks|
      ensures (a + c.checks)[k].result == FetchAt(fetch, k)
    {
      if k >= |a| {
        assert (a + c.checks)[k] == c.checks[k - |a|];
      }
    }
  }

  lemma LogShapeSnoc(log: seq<Cycle>, c: Cycle, users: seq<string>, interval: int)
    requires LogShape(log, users, interval)
    requires |log| > 0 ==> Complete(log[|log| - 1], |users|, interval)
    requires Prefix(c, users, interval)
    ensures LogShape(log + [c], users, interval)
  {
    assert forall k :: 0 <= k < |log| ==> (log + [c])[k] == log[k];
  }

  /** Rows appended to the user table do not change the id of a user already in it. */
  lemma {:induction false} UserIdOfExtend(users: seq<User>, more: seq<User>, username: string)
    requires UserIdOf(users, username).Some?
    ensures UserIdOf(users + more, username) == UserIdOf(users, username)
  {
    assert (users + more)[0] == users[0];
    if users[0].username != username {
      assert (users + more)[1..] == users[1..] + more;
      UserIdOfExtend(users[1..], more, username);
    }
  }

  /** Filed rows stay filed under the same users when the user table grows. */
  lemma FiledUnderExtend(users: seq<User>, users': seq<User>, added: seq<Entry>, stored: seq<(string, ScoreRecord)>)
    requires FiledUnder(users, added, stored) && users <= users'
    ensures FiledUnder(users', added, stored)
  {
    var more := users'[|users|..];
    assert users' == users + more;
    forall k | 0 <= k < |added|
      ensures UserIdOf(users', stored[k].0) == Some(added[k].userId)
    {
      UserIdOfExtend(users, more, stored[k].0);
    }
  }

  /** Filing two batches in turn files their concatenation. */
  lemma FiledUnderAppend(users: seq<User>, a: seq<Entry>, b: seq<Entry>,
                         s: seq<(string, ScoreRecord)>, t: seq<(string, ScoreRecord)>)
    requires FiledUnder(users, a, s) && FiledUnder(users, b, t)
    ensures FiledUnder(users, a + b, s + t)
  {
    forall k | 0 <= k < |a + b|
      ensures RecordOf((a + b)[k]) == (s + t)[k].1 && UserIdOf(users, (s + t)[k].0) == Some((a + b)[k].userId)
    {
      if k < |a| {
        assert (a + b)[k] == a[k] && (s + t)[k] == s[k];
      } else {
        assert (a + b)[k] == b[k - |a|] && (s + t)[k] == t[k - |a|];
      }
    }
  }

  /** The `SnapchatTracker` application object. */
  class SnapchatTracker {
    const db: DatabaseManager
    var hasAutomation: bool
    var isTracking: bool
    var trackingInterval: int
    var trackedUsers: seq<string>

    ghost predicate Valid()
      reads this, db
    {
      db.Valid() && NoDuplicates(trackedUsers)
    }

    /** `__init__` with `load_tracked_users`: the list starts as the stored users. */
    constructor (db: DatabaseManager)
      requires db.Valid()
      ensures Valid()
      ensures this.db == db
      ensures !hasAutomation && !isTracking && trackingInterval == 300
      ensures trackedUsers == AllUsers(db.users)
    {
      this.db := db;
      hasAutomation, isTracking, trackingInterval := false, false, 300;
      trackedUsers := AllUsers(db.users);
      AllUsersSpec(db.users);
      NoDuplicatesMultiset(Usernames(db.users));
      NoDuplicatesMultiset(AllUsers(db.users));
    }

    /** `setup_browser`: a failed setup after a successful one leaves the old
        (closed) automation in place, so the flag only ever turns on. */
    method SetupBrowser(ok: bool)
      modifies this
      ensures hasAutomation == (old(hasAutomation) || ok)
      ensures isTracking == old(isTracking) && trackingInterval == old(trackingInterval)
      ensures trackedUsers == old(trackedUsers)
    {
      if ok {
        hasAutomation := true;
      }
    }

    /** One step of the `add_users` loop: a name not yet listed is appended and
        added to the database. */
    method AddName(username: string, now: int) returns (appended: bool)
      requires db.Valid()
      modifies this, db
      ensures db.Valid()
      ensures appended <==> username !in old(trackedUsers)
      ensures trackedUsers == if appended then old(trackedUsers) + [username] else old(trackedUsers)
      ensures forall u :: u in Usernames(db.users) <==> u in Usernames(old(db.users)) || (appended && u == username)
      ensures db.entries == old(db.entries)
      ensures hasAutomation == old(hasAutomation) && isTracking == old(isTracking)
      ensures trackingInterval == old(trackingInterval)
    {
      appended := username !in trackedUsers;
      if appended {
        trackedUsers := trackedUsers + [username];
        ghost var before := db.users;
        var _ := db.AddUser(username, now);
        if db.users != before {
          UsernamesSnoc(before, db.users[|db.users| - 1]);
        }
      }
    }

    /** The loop of the `add_users` closure over the typed names. */
    method AddNames(usernames: seq<string>, now: int) returns (addedCount: int)
      requires Valid()
      modifies this, db
      ensures Valid()
      ensures trackedUsers == old(trackedUsers) + NewNames(old(trackedUsers), usernames)
      ensures addedCount == |NewNames(old(trackedUsers), usernames)|
      ensures forall u :: u in Usernames(db.users) <==>
                u in Usernames(old(db.users)) || u in NewNames(old(trackedUsers), usernames)
      ensures db.entries == old(db.entries)
      ensures hasAutomation == old(hasAutomation) && isTracking == old(isTracking)
      ensures trackingInterval == old(trackingInterval)
    {
      ghost var tracked0 := trackedUsers;
      ghost var names0 := Usernames(db.users);
      addedCount := 0;
      var i := 0;
      while i < |usernames|
        invariant 0 <= i <= |usernames|
        invariant db.Valid()
        invariant trackedUsers == tracked0 + NewNames(tracked0, usernames[..i])
        invariant addedCount == |NewNames(tracked0, usernames[..i])|
        invariant forall u :: u in Usernames(db.users) <==> u in names0 || u in NewNames(tracked0, usernames[..i])
        invariant db.entries == old(db.entries)
        invariant hasAutomation == old(hasAutomation) && isTracking == old(isTracking)
        invariant trackingInterval == old(trackingInterval)
      {
        var username := usernames[i];
        ghost var prior := NewNames(tracked0, usernames[..i]);
        NewNamesSnoc(tracked0, usernames, i);
        var appended := AddName(username, now);
        if appended {
          AppendAssoc(tracked0, prior, [username]);
          addedCount := addedCount + 1;
        }
        i := i + 1;
      }
      assert usernames[..|usernames|] == usernames;
      NewNamesSpec(old(trackedUsers), usernames, []);
    }

    /** The `add_users` closure: each typed name not yet listed is appended and
        added to the database; the count is the number appended. */
    method AddUsers(text: string, now: int) returns (addedCount: int)
      requires Valid()
      modifies this, db
      ensures Valid()
      ensures trackedUsers == old(trackedUsers) + NewNames(old(trackedUsers), InputNames(text))
      ensures addedCount == |NewNames(old(trackedUsers), InputNames(text))|
      ensures forall u :: u in Usernames(db.users) <==>
                u in Usernames(old(db.users)) || u in NewNames(old(trackedUsers), InputNames(text))
      ensures db.entries == old(db.entries)
      ensures hasAutomation == old(hasAutomation) && isTracking == old(isTracking)
      ensures trackingInterval == old(trackingInterval)
    {
      var usernames := InputNames(text);
      addedCount := AddNames(usernames, now);
    }

    /** `remove_user`: with a selected row and a confirmation, the selected name
        leaves the list (its first occurrence, the only one). */
    method RemoveUser(selection: Option<nat>, confirmed: bool)
      requires Valid()
      requires selection.Some? ==> selection.value < |trackedUsers|
      modifies this
      ensures Valid()
      ensures trackedUsers == if selection.Some? && confirmed then RemoveFirst(old(trackedUsers), old(trackedUsers)[selection.value])
                              else old(trackedUsers)
      ensures selection.Some? && confirmed ==>
                trackedUsers == old(trackedUsers)[..selection.value] + old(trackedUsers)[selection.value + 1..]
      ensures hasAutomation == old(hasAutomation) && isTracking == old(isTracking)
      ensures trackingInterval == old(trackingInterval)
    {
      if selection.Some? {
        var index := selection.value;
        var username := trackedUsers[index];
        if confirmed {
          RemoveFirstDistinct(trackedUsers, username);
          assert IndexOf(trackedUsers, username) == index;
          trackedUsers := RemoveFirst(trackedUsers, username);
        }
      }
    }

    /** `toggle_tracking` with `start_tracking` and `stop_tracking`: tracking starts
        only with an automation and a non-empty list, and then takes the interval
        in seconds; a running tracker stops. */
    method ToggleTracking(intervalMinutes: int)
      modifies this
      ensures isTracking <==> !old(isTracking) && old(hasAutomation) && old(trackedUsers) != []
      ensures trackingInterval == if isTracking then intervalMinutes * 60 else old(trackingInterval)
      ensures hasAutomation == old(hasAutomation) && trackedUsers == old(trackedUsers)
    {
      if !isTracking {
        if !hasAutomation {
          return;
        }
        if |trackedUsers| == 0 {
          return;
        }
        isTracking := true;
        trackingInterval := intervalMinutes * 60;
      } else {
        isTracking := false;
      }
    }

    /** The per-user loop of `tracking_loop`: users in list order, each after a
        true flag read; each answer the automation gives is stored. */
    method CheckUsers(stopAt: nat, fetch: seq<Option<ScoreRecord>>, seen0: nat, calls0: nat)
      returns (checks: seq<Check>, seen: nat, calls: nat, ghost added: seq<Entry>)
      requires Valid() && seen0 <= stopAt
      modifies db
      ensures Valid()
      ensures |checks| <= |trackedUsers|
      ensures forall j :: 0 <= j < |checks| ==> checks[j].username == trackedUsers[j]
      ensures seen == seen0 + |checks| && seen <= stopAt
      ensures |checks| < |trackedUsers| ==> seen == stopAt
      ensures calls == calls0 + |checks|
      ensures Answered(checks, fetch, calls0)
      ensures db.entries == old(db.entries) + added
      ensures old(db.users) <= db.users
      ensures FiledUnder(db.users, added, StoredOf(checks))
    {
      checks, seen, calls := [], seen0, calls0;
      added := [];
      var users := trackedUsers;
      var i := 0;
      while i < |users|
        invariant 0 <= i <= |users|
        invariant |checks| == i
        invariant forall j :: 0 <= j < i ==> checks[j].username == users[j]
        invariant seen == seen0 + i && seen <= stopAt
        invariant calls == calls0 + i
        invariant Answered(checks, fetch, calls0)
        invariant db.Valid()
        invariant db.entries == old(db.entries) + added
        invariant old(db.users) <= db.users
        invariant FiledUnder(db.users, added, StoredOf(checks))
      {
        if !(seen < stopAt) {
          break;
        }
        seen := seen + 1;
        var username := users[i];
        var scoreData := FetchAt(fetch, calls);
        calls := calls + 1;
        var check := Check(username, scoreData);
        assert (checks + [check])[..|checks|] == checks;
        if scoreData.Some? {
          added := StoreAnswer(username, scoreData.value, old(db.entries), added, StoredOf(checks));
        }
        checks := checks + [check];
        i := i + 1;
      }
    }

    /** `add_score_entry(username, …)` for one answer: its row is appended and
        filed under that user. */
    method StoreAnswer(username: string, answer: ScoreRecord, ghost base: seq<Entry>,
                       ghost added: seq<Entry>, ghost stored: seq<(string, ScoreRecord)>)
      returns (ghost added': seq<Entry>)
      requires db.Valid() && db.entries == base + added && FiledUnder(db.users, added, stored)
      modifies db
      ensures db.Valid() && db.entries == base + added' && old(db.users) <= db.users
      ensures FiledUnder(db.users, added', stored + [(username, answer)])
    {
      var _ := db.AddScoreEntry(username, answer.score, answer.hasNewSnap, answer.timestamp);
      var e := db.entries[|db.entries| - 1];
      AppendAssoc(base, added, [e]);
      FiledUnderExtend(old(db.users), db.users, added, stored);
      FiledUnderAppend(db.users, added, [e], stored, [(username, answer)]);
      added' := added + [e];
    }

    /** The countdown of `tracking_loop`: one tick per true flag read, at most the
        interval. */
    static method Wait(stopAt: nat, seen0: nat, interval: int) returns (ticks: nat, seen: nat)
      requires seen0 <= stopAt
      ensures ticks <= FullWait(interval)
      ensures seen == seen0 + ticks && seen <= stopAt
      ensures ticks < FullWait(interval) ==> seen == stopAt
    {
      ticks, seen := 0, seen0;
      while ticks < interval
        invariant ticks <= FullWait(interval)
        invariant seen == seen0 + ticks && seen <= stopAt
      {
        if !(seen < stopAt) {
          break;
        }
        seen := seen + 1;
        ticks := ticks + 1;
      }
    }

    /** One pass of `tracking_loop` after its loop test: check the users, then,
        if the flag still reads true, wait. */
    method RunCycle(stopAt: nat, fetch: seq<Option<ScoreRecord>>, seen0: nat, calls0: nat)
      returns (cycle: Cycle, seen: nat, calls: nat, ghost added: seq<Entry>)
      requires Valid() && seen0 <= stopAt
      modifies db
      ensures Valid()
      ensures seen + 1 == seen0 + TrueReads(cycle) && seen <= stopAt
      ensures Prefix(cycle, trackedUsers, trackingInterval)
      ensures seen < stopAt ==> Complete(cycle, |trackedUsers|, trackingInterval)
      ensures calls == calls0 + |cycle.checks|
      ensures Answered(cycle.checks, fetch, calls0)
      ensures db.entries == old(db.entries) + added
      ensures old(db.users) <= db.users
      ensures FiledUnder(db.users, added, StoredOf(cycle.checks))
    {
      var checks;
      checks, seen, calls, added := CheckUsers(stopAt, fetch, seen0, calls0);
      var waited := false;
      var ticks := 0;
      if seen < stopAt {
        seen := seen + 1;
        waited := true;
        ticks, seen := Wait(stopAt, seen, trackingInterval);
      }
      cycle := Cycle(checks, waited, ticks);
    }

    /** `tracking_loop`: cycles over the users in list order, storing each answer
        the automation gives, then waits the interval one second at a time; every
        step first reads the flag, and the loop ends at the first false read. The
        log says what each cycle did, and `calls` counts the
        fetches made. */
    method TrackingLoop(stopAt: nat, fetch: seq<Option<ScoreRecord>>) returns (log: seq<Cycle>, calls: nat, ghost added: seq<Entry>)
      requires Valid()
      modifies db
      ensures Valid()
      ensures SumReads(log) == stopAt
      ensures LogShape(log, trackedUsers, trackingInterval)
      ensures calls == |AllChecks(log)|
      ensures Answered(AllChecks(log), fetch, 0)
      ensures db.entries == old(db.entries) + added
      ensures FiledUnder(db.users, added, Stored(log))
    {
      var seen := 0;
      calls := 0;
      log := [];
      added := [];
      var running := seen < stopAt;
      if running { seen := seen + 1; }
      while running
        invariant seen <= stopAt
        invariant seen == SumReads(log) + if running then 1 else 0
        invariant !running ==> seen == stopAt
        invariant db.Valid()
        invariant LogShape(log, trackedUsers, trackingInterval)
        invariant running && |log| > 0 ==> Complete(log[|log| - 1], |trackedUsers|, trackingInterval)
        invariant calls == |AllChecks(log)|
        invariant Answered(AllChecks(log), fetch, 0)
        invariant db.entries == old(db.entries) + added
        invariant FiledUnder(db.users, added, Stored(log))
        decreases stopAt - seen, if running then 1 else 0
      {
        var cycle;
        ghost var rows;
        ghost var users0 := db.users;
        cycle, seen, calls, rows := RunCycle(stopAt, fetch, seen, calls);
        AllChecksSnoc(log, cycle, fetch);
        FiledUnderExtend(users0, db.users, added, Stored(log));
        FiledUnderAppend(db.users, added, rows, Stored(log), StoredOf(cycle.checks));
        AppendAssoc(old(db.entries), added, rows);
        added := added + rows;
        assert (log + [cycle])[..|log|] == log;
        LogShapeSnoc(log, cycle, trackedUsers, trackingInterval);
        log := log + [cycle];
        running := seen < stopAt;
        if running { seen := seen + 1; }
      }
    }
  }
}
