/** The desktop application's relational store (src/database.py), with the two
    tables held in memory: `users` and `score_entries`, each in insertion (row id)
    order. Timestamps are integer seconds; `now` stands for SQLite's clock. */
module Database {
  import opened Base
  import opened Sorting

  /** A row of `users`. */
  datatype User = User(id: int, username: string, addedDate: int)

  /** A row of `score_entries`. */
  datatype Entry = Entry(id: int, userId: int, score: int, hasNewSnap: bool, timestamp: int)

  /** An element of `get_score_changes`: `{timestamp, score, change, has_new_snap}`. */
  datatype Change = Change(timestamp: int, score: int, change: int, hasNewSnap: bool)

  /** An element of `get_suspicious_activity`. */
  datatype Suspicious = Suspicious(username: string, timestamp: int, scoreIncrease: int, currentScore: int)

  /** The dictionary `get_user_stats` returns for a user with readings. */
  datatype Stats = Stats(username: string, currentScore: int, lastUpdated: int,
                         changesToday: nat, totalChangeToday: int, dailyChange: int,
                         hasRecentSnap: bool)

  const SecondsPerHour: int := 3600
  const SecondsPerDay: int := 86400

  function Usernames(users: seq<User>): (r: seq<string>)
    ensures |r| == |users|
    ensures forall i :: 0 <= i < |users| ==> r[i] == users[i].username
  {
    seq(|users|, i requires 0 <= i < |users| => users[i].username)
  }

  function EntryTime(e: Entry): int { e.timestamp }

  function ChangeTime(c: Change): int { c.timestamp }

  function SuspicionTime(s: Suspicious): int { s.timestamp }

  function OfUser(userId: int): Entry -> bool
  {
    (e: Entry) => e.userId == userId
  }

  function InWindow(userId: int, since: int): Entry -> bool
  {
    (e: Entry) => e.userId == userId && e.timestamp >= since
  }

  function Kept(cutoff: int): Entry -> bool
  {
    (e: Entry) => e.timestamp >= cutoff
  }

  function Expired(cutoff: int): Entry -> bool
  {
    (e: Entry) => e.timestamp < cutoff
  }

  /** `get_user_id`: the id of the user row with that name, if there is one. */
  function UserIdOf(users: seq<User>, username: string): (r: Option<int>)
    ensures r.None? <==> username !in Usernames(users)
    ensures r.Some? ==> exists i :: 0 <= i < |users| && users[i].username == username && users[i].id == r.value
  {
    if users == [] then None
    else if users[0].username == username then Some(users[0].id)
    else
      var r := UserIdOf(users[1..], username);
      assert Usernames(users) == [users[0].username] + Usernames(users[1..]);
      assert r.Some? ==> exists i :: 0 <= i < |users| && users[i].username == username && users[i].id == r.value by {
        if r.Some? {
          var i :| 0 <= i < |users[1..]| && users[1..][i].username == username && users[1..][i].id == r.value;
          assert users[i + 1] == users[1..][i];
        }
      }
      r
  }

  /** `get_user_scores`: the user's readings, newest first, at most `limit` of them
      (a negative `limit` means no limit, as in SQLite); none for an unknown user.
      Readings with equal timestamps stay in row order. */
  function UserScores(users: seq<User>, entries: seq<Entry>, username: string, limit: int): seq<Entry>
  {
    match UserIdOf(users, username)
    case None => []
    case Some(userId) =>
      var newestFirst := SortDesc(Filter(entries, OfUser(userId)), EntryTime);
      if limit < 0 then newestFirst else Take(newestFirst, limit)
  }

  /** The predecessor the `LEFT JOIN` finds: among the user's readings strictly
      earlier than `t`, the one with the largest id. */
  function LatestBefore(entries: seq<Entry>, userId: int, t: int): (r: Option<Entry>)
    ensures r.None? <==> forall i :: 0 <= i < |entries| ==> !(entries[i].userId == userId && entries[i].timestamp < t)
    ensures r.Some? ==> r.value in entries && r.value.userId == userId && r.value.timestamp < t
    ensures r.Some? ==> forall i :: 0 <= i < |entries| && entries[i].userId == userId && entries[i].timestamp < t ==>
                          entries[i].id <= r.value.id
  {
    if entries == [] then None
    else
      var rest := LatestBefore(entries[..|entries| - 1], userId, t);
      var last := entries[|entries| - 1];
      if last.userId == userId && last.timestamp < t && (rest.None? || rest.value.id <= last.id) then Some(last)
      else rest
  }

  /** The change one row contributes: present only when the row has a predecessor
      and its score is larger. */
  function ChangeFor(entries: seq<Entry>, e: Entry): (r: Option<Change>)
    ensures r.Some? <==> LatestBefore(entries, e.userId, e.timestamp).Some? &&
                         e.score > LatestBefore(entries, e.userId, e.timestamp).value.score
    ensures r.Some? ==> r.value.timestamp == e.timestamp && r.value.score == e.score &&
                        r.value.hasNewSnap == e.hasNewSnap &&
                        r.value.change == e.score - LatestBefore(entries, e.userId, e.timestamp).value.score
  {
    match LatestBefore(entries, e.userId, e.timestamp)
    case None => None
    case Some(prev) =>
      if e.score - prev.score > 0 then Some(Change(e.timestamp, e.score, e.score - prev.score, e.hasNewSnap))
      else None
  }

  /** The loop over the fetched rows, appending each positive change. */
  function ChangesOf(entries: seq<Entry>, rows: seq<Entry>): (r: seq<Change>)
    ensures |r| <= |rows|
    ensures forall i :: 0 <= i < |r| ==> r[i].change > 0
  {
    if rows == [] then []
    else ChangesOf(entries, rows[..|rows| - 1]) + OptionToSeq(ChangeFor(entries, rows[|rows| - 1]))
  }

  /** The rows the change query fetches: the user's readings since `since`, oldest first. */
  function WindowRows(entries: seq<Entry>, userId: int, since: int): seq<Entry>
  {
    SortAsc(Filter(entries, InWindow(userId, since)), EntryTime)
  }

  /** `datetime('now', '-N hours')`: the start of a window of `hours` hours ending at `now`. */
  function WindowStart(hours: int, now: int): int
  {
    now - hours * SecondsPerHour
  }

  /** `get_score_changes`: the positive changes of the user's readings in the last
      `hours` hours, oldest first. For a negative `hours` the modifier is written
      `'--N hours'`, which SQLite rejects: the window start is NULL and no row
      qualifies. */
  function ScoreChanges(users: seq<User>, entries: seq<Entry>, username: string, hours: int, now: int): seq<Change>
  {
    var userId := UserIdOf(users, username);
    if userId.None? || hours < 0 then []
    else ChangesOf(entries, WindowRows(entries, userId.value, WindowStart(hours, now)))
  }

  /** `get_all_users`: the usernames in ascending order. */
  function AllUsers(users: seq<User>): seq<string>
  {
    SortStrings(Usernames(users))
  }

  function Sum(changes: seq<Change>): int
  {
    if changes == [] then 0 else Sum(changes[..|changes| - 1]) + changes[|changes| - 1].change
  }

  /** `get_user_stats` over the newest 1000 readings and the last 24 hours of
      changes; None stands for the empty dictionary. */
  function UserStats(users: seq<User>, entries: seq<Entry>, username: string, now: int): Option<Stats>
  {
    var userScores := UserScores(users, entries, username, 1000);
    if userScores == [] then None
    else
      var latest := userScores[0];
      var changesToday := ScoreChanges(users, entries, username, 24, now);
      var dailyChange := if |userScores| > 1 then latest.score - userScores[|userScores| - 1].score else 0;
      Some(Stats(username, latest.score, latest.timestamp, |changesToday|, Sum(changesToday),
                 dailyChange, latest.hasNewSnap))
  }

  /** The suspicious records one user's changes give: those without a new snap. */
  function SuspiciousOf(username: string, changes: seq<Change>): seq<Suspicious>
  {
    if changes == [] then []
    else
      var c := changes[|changes| - 1];
      SuspiciousOf(username, changes[..|changes| - 1]) +
        (if !c.hasNewSnap && c.change > 0 then [Suspicious(username, c.timestamp, c.change, c.score)] else [])
  }

  /** The suspicious records of one user's changes in the window. */
  function UserSuspicious(users: seq<User>, entries: seq<Entry>, hours: int, now: int): string -> seq<Suspicious>
  {
    (name: string) => SuspiciousOf(name, ScoreChanges(users, entries, name, hours, now))
  }

  /** `get_suspicious_activity`: every user's suspicious records, newest first. */
  function SuspiciousActivity(users: seq<User>, entries: seq<Entry>, hours: int, now: int): seq<Suspicious>
  {
    SortDesc(ConcatMap(AllUsers(users), UserSuspicious(users, entries, hours, now)), SuspicionTime)
  }

  /** The row loop of `get_score_changes`: each row with a predecessor and a
      larger score adds its change. */
  method CollectChanges(entries: seq<Entry>, rows: seq<Entry>) returns (changes: seq<Change>)
    ensures changes == ChangesOf(entries, rows)
  {
    changes := [];
    var i := 0;
    while i < |rows|
      invariant 0 <= i <= |rows|
      invariant changes == ChangesOf(entries, rows[..i])
    {
      var row := rows[i];
      assert rows[..i + 1][..i] == rows[..i];
      var change := RowChange(entries, row);
      changes := changes + OptionToSeq(change);
      i := i + 1;
    }
    assert rows[..|rows|] == rows;
  }

  /** The body of the row loop: the previous reading, then the positive change. */
  method RowChange(entries: seq<Entry>, row: Entry) returns (c: Option<Change>)
    ensures c == ChangeFor(entries, row)
  {
    var prev := LatestBefore(entries, row.userId, row.timestamp);
    if prev.Some? {
      var change := row.score - prev.value.score;
      if change > 0 {
        return Some(Change(row.timestamp, row.score, change, row.hasNewSnap));
      }
    }
    return None;
  }

  /** The readings' ids grow along the table, as the AUTOINCREMENT primary key
      hands them out. */
  predicate IdsAscending(entries: seq<Entry>)
  {
    forall i, j :: 0 <= i < j < |entries| ==> entries[i].id < entries[j].id
  }

  /** Deleting readings keeps the ids of the rest in ascending order. */
  lemma {:induction false} FilterIdsAscending(entries: seq<Entry>, f: Entry -> bool)
    requires IdsAscending(entries)
    ensures IdsAscending(Filter(entries, f))
  {
    if entries != [] {
      var front, last := entries[..|entries| - 1], entries[|entries| - 1];
      FilterIdsAscending(front, f);
      forall e | e in Filter(front, f)
        ensures e.id < last.id
      {
        FilterMembership(front, f, e);
      }
    }
  }

  /** The `DatabaseManager` with its two tables and their AUTOINCREMENT counters. */
  class DatabaseManager {
    var users: seq<User>
    var entries: seq<Entry>
    var nextUserId: int
    var nextEntryId: int

    ghost predicate Valid()
      reads this
    {
      && NoDuplicates(Usernames(users))
      && nextUserId >= 1 && nextEntryId >= 1
      && (forall i :: 0 <= i < |users| ==> 1 <= users[i].id < nextUserId)
      && (forall i, j :: 0 <= i < j < |users| ==> users[i].id < users[j].id)
      && (forall e :: e in entries ==> 1 <= e.id < nextEntryId)
      && IdsAscending(entries)
    }

    constructor ()
      ensures Valid()
      ensures users == [] && entries == []
    {
      users, entries := [], [];
      nextUserId, nextEntryId := 1, 1;
    }

    /** `add_user`: `INSERT OR IGNORE` on the unique username; true iff a row was added. */
    method AddUser(username: string, now: int) returns (added: bool)
      requires Valid()
      modifies this
      ensures Valid()
      ensures added <==> username !in Usernames(old(users))
      ensures username in Usernames(users)
      ensures users == if added then old(users) + [User(old(nextUserId), username, now)] else old(users)
      ensures nextUserId == if added then old(nextUserId) + 1 else old(nextUserId)
      ensures entries == old(entries) && nextEntryId == old(nextEntryId)
    {
      if username in Usernames(users) {
        return false;
      }
      assert Usernames(users + [User(nextUserId, username, now)]) == Usernames(users) + [username];
      users := users + [User(nextUserId, username, now)];
      nextUserId := nextUserId + 1;
      added := true;
    }

    /** `add_score_entry`: creates the user when missing, then appends one reading
        stamped `now` under that user's id. */
    method AddScoreEntry(username: string, score: int, hasNewSnap: bool, now: int) returns (ok: bool)
      requires Valid()
      modifies this
      ensures Valid()
      ensures ok
      ensures username in old(Usernames(users)) ==> users == old(users)
      ensures username !in old(Usernames(users)) ==> users == old(users) + [User(old(nextUserId), username, now)]
      ensures UserIdOf(users, username).Some?
      ensures entries == old(entries) + [Entry(old(nextEntryId), UserIdOf(users, username).value, score, hasNewSnap, now)]
    {
      var userId := UserIdOf(users, username);
      if userId.None? {
        var _ := AddUser(username, now);
        userId := UserIdOf(users, username);
      }
      entries := entries + [Entry(nextEntryId, userId.value, score, hasNewSnap, now)];
      nextEntryId := nextEntryId + 1;
      ok := true;
    }

    /** `cleanup_old_data`: deletes the readings older than `days` days and returns
        how many went. For a negative `days` the modifier is written `'--N days'`,
        which SQLite rejects: the cut-off is NULL, `timestamp < NULL` holds for no
        row, and nothing is deleted. */
    method CleanupOldData(days: int, now: int) returns (deleted: int)
      requires Valid()
      modifies this
      ensures Valid()
      ensures days >= 0 ==> entries == Filter(old(entries), Kept(now - days * SecondsPerDay))
      ensures days >= 0 ==> deleted == Count(old(entries), Expired(now - days * SecondsPerDay))
      ensures days < 0 ==> entries == old(entries) && deleted == 0
      ensures users == old(users) && nextUserId == old(nextUserId) && nextEntryId == old(nextEntryId)
    {
      if days < 0 {
        return 0;
      }
      var cutoff := now - days * SecondsPerDay;
      var before := entries;
      entries := Filter(entries, Kept(cutoff));
      deleted := |before| - |entries|;
      FilterIdsAscending(before, Kept(cutoff));
      FilterCount(before, Kept(cutoff));
      CountSplit(before, Kept(cutoff), Expired(cutoff));
      forall e | e in entries
        ensures 1 <= e.id < nextEntryId
      {
        FilterMembership(before, Kept(cutoff), e);
      }
    }

    /** `get_score_changes`, row loop included. */
    method GetScoreChanges(username: string, hours: int, now: int) returns (changes: seq<Change>)
      ensures changes == ScoreChanges(users, entries, username, hours, now)
    {
      var userId := UserIdOf(users, username);
      if userId.None? {
        return [];
      }
      if hours < 0 {
        // `timestamp >= NULL` holds for no row
        return [];
      }
      var since := WindowStart(hours, now);
      var rows := WindowRows(entries, userId.value, since);
      changes := CollectChanges(entries, rows);
    }

    /** `get_suspicious_activity`: the outer loop over the usernames. */
    method GetSuspiciousActivity(hours: int, now: int) returns (r: seq<Suspicious>)
      ensures r == SuspiciousActivity(users, entries, hours, now)
    {
      var names := AllUsers(users);
      var perUser := UserSuspicious(users, entries, hours, now);
      var suspicious: seq<Suspicious> := [];
      var i := 0;
      while i < |names|
        invariant 0 <= i <= |names|
        invariant suspicious == ConcatMap(names[..i], perUser)
      {
        var username := names[i];
        var changes := GetScoreChanges(username, hours, now);
        suspicious := AppendSuspicious(suspicious, username, changes);
        ConcatMapSnoc(names, i, perUser);
        i := i + 1;
      }
      assert names[..|names|] == names;
      r := SortDesc(suspicious, SuspicionTime);
    }
  }

  /** The inner loop of `get_suspicious_activity`: appends the records of one
      user's changes that came without a new snap. */
  method AppendSuspicious(suspicious: seq<Suspicious>, username: string, changes: seq<Change>)
    returns (r: seq<Suspicious>)
    ensures r == suspicious + SuspiciousOf(username, changes)
  {
    r := suspicious;
    var j := 0;
    while j < |changes|
      invariant 0 <= j <= |changes|
      invariant r == suspicious + SuspiciousOf(username, changes[..j])
    {
      var change := changes[j];
      assert changes[..j + 1][..j] == changes[..j];
      if !change.hasNewSnap && change.change > 0 {
        r := r + [Suspicious(username, change.timestamp, change.change, change.score)];
      }
      j := j + 1;
    }
    assert changes[..|changes|] == changes;
  }

  // ----- properties of the queries -----

  /** The deletion keeps exactly the readings stamped at or after the cut-off,
      each as often as before, and the kept and deleted counts add up. */
  lemma CleanupKeeps(entries: seq<Entry>, cutoff: int, e: Entry)
    ensures e in Filter(entries, Kept(cutoff)) <==> e in entries && e.timestamp >= cutoff
    ensures multiset(Filter(entries, Kept(cutoff)))[e] == if e.timestamp >= cutoff then multiset(entries)[e] else 0
    ensures |Filter(entries, Kept(cutoff))| + Count(entries, Expired(cutoff)) == |entries|
  {
    FilterMembership(entries, Kept(cutoff), e);
    FilterMultiset(entries, Kept(cutoff), e);
    FilterCount(entries, Kept(cutoff));
    CountSplit(entries, Kept(cutoff), Expired(cutoff));
  }

  /** `get_user_scores`: nothing for an unknown user; otherwise only that user's
      readings, newest first, at most `limit` of them, none left out that is newer
      than one returned, and all of them when there is no limit. */
  lemma UserScoresSpec(users: seq<User>, entries: seq<Entry>, username: string, limit: int)
    ensures UserIdOf(users, username).None? ==> UserScores(users, entries, username, limit) == []
    ensures limit >= 0 ==> |UserScores(users, entries, username, limit)| <= limit
    ensures SortedDesc(UserScores(users, entries, username, limit), EntryTime)
    ensures forall e :: e in UserScores(users, entries, username, limit) ==>
              e in entries && UserIdOf(users, username) == Some(e.userId)
    ensures forall e, d ::
              && e in entries && UserIdOf(users, username) == Some(e.userId)
              && e !in UserScores(users, entries, username, limit)
              && d in UserScores(users, entries, username, limit)
              ==> d.timestamp >= e.timestamp
    ensures limit < 0 && UserIdOf(users, username).Some? ==>
              multiset(UserScores(users, entries, username, limit)) ==
              multiset(Filter(entries, OfUser(UserIdOf(users, username).value)))
    ensures limit >= 0 && UserIdOf(users, username).Some? ==>
              |UserScores(users, entries, username, limit)| ==
              Min(limit, |Filter(entries, OfUser(UserIdOf(users, username).value))|)
    ensures UserIdOf(users, username).Some? ==>
              multiset(UserScores(users, entries, username, limit)) <=
              multiset(Filter(entries, OfUser(UserIdOf(users, username).value)))
  {
    var r := UserScores(users, entries, username, limit);
    if UserIdOf(users, username).Some? {
      var userId := UserIdOf(users, username).value;
      var mine := Filter(entries, OfUser(userId));
      var sorted := SortDesc(mine, EntryTime);
      SortDescSorted(mine, EntryTime);
      SortDescMultiset(mine, EntryTime);
      assert r == if limit < 0 then sorted else Take(sorted, limit);
      assert r == sorted[..|r|];
      assert |sorted| == |mine| by {
        assert |multiset(sorted)| == |multiset(mine)|;
      }
      PrefixMultiset(sorted, |r|);
      forall e | e in r
        ensures e in entries && e.userId == userId
      {
        SortDescMembership(mine, EntryTime, e);
        FilterMembership(entries, OfUser(userId), e);
      }
      forall e, d | e in entries && e.userId == userId && e !in r && d in r
        ensures d.timestamp >= e.timestamp
      {
        FilterMembership(entries, OfUser(userId), e);
        SortDescMembership(mine, EntryTime, e);
        PrefixNewest(sorted, EntryTime, |r|, e, d);
      }
    }
  }

  function RowChangeOf(entries: seq<Entry>): Entry -> Option<Change>
  {
    (e: Entry) => ChangeFor(entries, e)
  }

  /** The row loop collects the change of each row that has one. */
  lemma {:induction false} ChangesOfCollect(entries: seq<Entry>, rows: seq<Entry>)
    ensures ChangesOf(entries, rows) == Collect(rows, RowChangeOf(entries))
  {
    if rows != [] {
      ChangesOfCollect(entries, rows[..|rows| - 1]);
    }
  }

  lemma ChangesOfMembership(entries: seq<Entry>, rows: seq<Entry>, c: Change)
    ensures c in ChangesOf(entries, rows) <==> exists i :: 0 <= i < |rows| && ChangeFor(entries, rows[i]) == Some(c)
  {
    ChangesOfCollect(entries, rows);
    CollectMembership(rows, RowChangeOf(entries), c);
  }

  lemma {:induction false} ChangesOfSorted(entries: seq<Entry>, rows: seq<Entry>)
    requires SortedAsc(rows, EntryTime)
    ensures SortedAsc(ChangesOf(entries, rows), ChangeTime)
  {
    if rows != [] {
      var prefix := rows[..|rows| - 1];
      var last := rows[|rows| - 1];
      assert SortedAsc(prefix, EntryTime);
      ChangesOfSorted(entries, prefix);
      var front := ChangesOf(entries, prefix);
      var back := OptionToSeq(ChangeFor(entries, last));
      forall k | 0 <= k < |front|
        ensures front[k].timestamp <= last.timestamp
      {
        ChangesOfMembership(entries, prefix, front[k]);
        var i :| 0 <= i < |prefix| && ChangeFor(entries, prefix[i]) == Some(front[k]);
        assert prefix[i] == rows[i];
      }
      var r := front + back;
      assert r == ChangesOf(entries, rows);
      forall i, j | 0 <= i < j < |r|
        ensures ChangeTime(r[i]) <= ChangeTime(r[j])
      {
        if j >= |front| {
          assert r[j] == back[0];
        }
      }
    }
  }

  /** The changes of a window are exactly the changes of the user's rows inside
      the window. */
  lemma WindowChangesMembership(entries: seq<Entry>, userId: int, since: int, c: Change)
    ensures c in ChangesOf(entries, WindowRows(entries, userId, since)) <==>
              exists e :: e in entries && e.userId == userId && e.timestamp >= since && ChangeFor(entries, e) == Some(c)
  {
    var window := Filter(entries, InWindow(userId, since));
    var rows := SortAsc(window, EntryTime);
    ChangesOfMembership(entries, rows, c);
    if c in ChangesOf(entries, rows) {
      var i :| 0 <= i < |rows| && ChangeFor(entries, rows[i]) == Some(c);
      WindowRowOf(entries, userId, since, rows[i]);
    }
    if exists e :: e in entries && e.userId == userId && e.timestamp >= since && ChangeFor(entries, e) == Some(c) {
      var e :| e in entries && e.userId == userId && e.timestamp >= since && ChangeFor(entries, e) == Some(c);
      WindowRowOf(entries, userId, since, e);
      var i :| 0 <= i < |rows| && rows[i] == e;
    }
  }

  /** A row is fetched exactly when it is the user's and inside the window. */
  lemma WindowRowOf(entries: seq<Entry>, userId: int, since: int, e: Entry)
    ensures e in WindowRows(entries, userId, since) <==> e in entries && e.userId == userId && e.timestamp >= since
  {
    SortAscMembership(Filter(entries, InWindow(userId, since)), EntryTime, e);
    FilterMembership(entries, InWindow(userId, since), e);
  }

  /** `get_score_changes`: nothing for an unknown user; otherwise oldest first,
      every change positive, and a change is reported exactly when some reading of
      the user inside the window has a predecessor with a smaller score. */
  lemma ScoreChangesSpec(users: seq<User>, entries: seq<Entry>, username: string, hours: int, now: int, c: Change)
    ensures UserIdOf(users, username).None? ==> ScoreChanges(users, entries, username, hours, now) == []
    ensures hours < 0 ==> ScoreChanges(users, entries, username, hours, now) == []
    ensures SortedAsc(ScoreChanges(users, entries, username, hours, now), ChangeTime)
    ensures forall i :: 0 <= i < |ScoreChanges(users, entries, username, hours, now)| ==>
              ScoreChanges(users, entries, username, hours, now)[i].change > 0
    ensures c in ScoreChanges(users, entries, username, hours, now) <==>
              hours >= 0 &&
              exists e :: e in entries && UserIdOf(users, username) == Some(e.userId) &&
                e.timestamp >= WindowStart(hours, now) && ChangeFor(entries, e) == Some(c)
  {
    if UserIdOf(users, username).Some? && hours >= 0 {
      var userId := UserIdOf(users, username).value;
      var rows := WindowRows(entries, userId, WindowStart(hours, now));
      SortAscSorted(Filter(entries, InWindow(userId, WindowStart(hours, now))), EntryTime);
      ChangesOfSorted(entries, rows);
      WindowChangesMembership(entries, userId, WindowStart(hours, now), c);
    }
  }

  /** `get_all_users`: every username once per row, in ascending order. */
  lemma AllUsersSpec(users: seq<User>)
    ensures StringsSorted(AllUsers(users))
    ensures multiset(AllUsers(users)) == multiset(Usernames(users))
  {
    SortStringsSpec(Usernames(users));
  }

  /** A sum of positive changes is at least the number of changes. */
  lemma {:induction false} SumPositive(changes: seq<Change>)
    requires forall i :: 0 <= i < |changes| ==> changes[i].change > 0
    ensures Sum(changes) >= |changes|
  {
    if changes != [] {
      SumPositive(changes[..|changes| - 1]);
    }
  }

  /** `get_user_stats`: empty exactly when the user has no reading; otherwise the
      current score is that of a newest reading, the day's count and total agree
      (the total is zero exactly when there is no change), and the daily change is
      newest minus oldest of the fetched readings, which is 0 for a single one. */
  lemma UserStatsSpec(users: seq<User>, entries: seq<Entry>, username: string, now: int)
    ensures UserStats(users, entries, username, now).None? <==>
              forall e :: e in entries ==> UserIdOf(users, username) != Some(e.userId)
    ensures UserStats(users, entries, username, now).Some? ==>
              var st := UserStats(users, entries, username, now).value;
              && (exists e :: e in entries && UserIdOf(users, username) == Some(e.userId) &&
                    e.score == st.currentScore && e.timestamp == st.lastUpdated && e.hasNewSnap == st.hasRecentSnap)
              && (forall e :: e in entries && UserIdOf(users, username) == Some(e.userId) ==>
                    e.timestamp <= st.lastUpdated)
              && st.changesToday == |ScoreChanges(users, entries, username, 24, now)|
              && st.totalChangeToday == Sum(ScoreChanges(users, entries, username, 24, now))
              && st.totalChangeToday >= st.changesToday
              && (st.totalChangeToday == 0 <==> st.changesToday == 0)
              && var fetched := UserScores(users, entries, username, 1000);
                 st.dailyChange == fetched[0].score - fetched[|fetched| - 1].score
  {
    var fetched := UserScores(users, entries, username, 1000);
    FetchedNonEmpty(users, entries, username, 1000);
    if fetched != [] {
      FetchedNewest(users, entries, username, 1000);
      var changes := ScoreChanges(users, entries, username, 24, now);
      ScoreChangesSpec(users, entries, username, 24, now, Change(0, 0, 0, false));
      SumPositive(changes);
    }
  }

  /** With a positive limit, the user's readings come back non-empty exactly when
      the user has a reading. */
  lemma FetchedNonEmpty(users: seq<User>, entries: seq<Entry>, username: string, limit: int)
    requires limit > 0
    ensures UserScores(users, entries, username, limit) != [] <==>
              exists e :: e in entries && UserIdOf(users, username) == Some(e.userId)
  {
    var fetched := UserScores(users, entries, username, limit);
    UserScoresSpec(users, entries, username, limit);
    if exists e :: e in entries && UserIdOf(users, username) == Some(e.userId) {
      var e :| e in entries && UserIdOf(users, username) == Some(e.userId);
      var userId := UserIdOf(users, username).value;
      var mine := Filter(entries, OfUser(userId));
      FilterMembership(entries, OfUser(userId), e);
      SortDescMembership(mine, EntryTime, e);
    }
    if fetched != [] {
      assert fetched[0] in fetched;
    }
  }

  /** The first reading fetched is the user's newest, and it is one of theirs. */
  lemma FetchedNewest(users: seq<User>, entries: seq<Entry>, username: string, limit: int)
    requires UserScores(users, entries, username, limit) != []
    ensures var latest := UserScores(users, entries, username, limit)[0];
      && latest in entries && UserIdOf(users, username) == Some(latest.userId)
      && forall e :: e in entries && UserIdOf(users, username) == Some(e.userId) ==> e.timestamp <= latest.timestamp
  {
    var fetched := UserScores(users, entries, username, limit);
    UserScoresSpec(users, entries, username, limit);
    var latest := fetched[0];
    assert latest in fetched;
    forall e | e in entries && UserIdOf(users, username) == Some(e.userId)
      ensures e.timestamp <= latest.timestamp
    {
      if e in fetched {
        var j :| 0 <= j < |fetched| && fetched[j] == e;
        if j > 0 { assert EntryTime(fetched[0]) >= EntryTime(fetched[j]); }
      }
    }
  }

  lemma {:induction false} SuspiciousOfMembership(username: string, changes: seq<Change>, x: Suspicious)
    ensures x in SuspiciousOf(username, changes) <==>
              exists c :: c in changes && !c.hasNewSnap && c.change > 0 &&
                x == Suspicious(username, c.timestamp, c.change, c.score)
  {
    if changes != [] {
      var prefix := changes[..|changes| - 1];
      SuspiciousOfMembership(username, prefix, x);
      assert changes == prefix + [changes[|changes| - 1]];
    }
  }

  /** A gathered record comes from some tracked user's change without a new snap. */
  lemma GatheredSuspiciousFrom(users: seq<User>, entries: seq<Entry>, hours: int, now: int, x: Suspicious)
    requires x in ConcatMap(AllUsers(users), UserSuspicious(users, entries, hours, now))
    ensures exists name, c :: name in Usernames(users) && c in ScoreChanges(users, entries, name, hours, now) &&
              !c.hasNewSnap && x == Suspicious(name, c.timestamp, c.change, c.score)
  {
    var names := AllUsers(users);
    var perUser := UserSuspicious(users, entries, hours, now);
    ConcatMapMembership(names, perUser, x);
    var k :| 0 <= k < |names| && x in perUser(names[k]);
    SuspiciousOfMembership(names[k], ScoreChanges(users, entries, names[k], hours, now), x);
    AllUsersSpec(users);
    assert names[k] in multiset(names);
  }

  /** Every tracked user's change without a new snap is gathered. */
  lemma GatheredSuspiciousTo(users: seq<User>, entries: seq<Entry>, hours: int, now: int, name: string, c: Change)
    requires name in Usernames(users) && c in ScoreChanges(users, entries, name, hours, now) && !c.hasNewSnap
    ensures Suspicious(name, c.timestamp, c.change, c.score) in
              ConcatMap(AllUsers(users), UserSuspicious(users, entries, hours, now))
  {
    var x := Suspicious(name, c.timestamp, c.change, c.score);
    var names := AllUsers(users);
    var perUser := UserSuspicious(users, entries, hours, now);
    ScoreChangesSpec(users, entries, name, hours, now, c);
    SuspiciousOfMembership(name, ScoreChanges(users, entries, name, hours, now), x);
    AllUsersSpec(users);
    assert name in multiset(Usernames(users));
    assert name in multiset(names);
    var k :| 0 <= k < |names| && names[k] == name;
    ConcatMapMembership(names, perUser, x);
  }

  /** `get_suspicious_activity`: newest first, every gathered record kept as often
      as it was gathered, and a record is listed exactly when some tracked user has
      a change in the window that came without a new snap. */
  lemma SuspiciousActivitySpec(users: seq<User>, entries: seq<Entry>, hours: int, now: int, x: Suspicious)
    ensures SortedDesc(SuspiciousActivity(users, entries, hours, now), SuspicionTime)
    ensures multiset(SuspiciousActivity(users, entries, hours, now)) ==
              multiset(ConcatMap(AllUsers(users), UserSuspicious(users, entries, hours, now)))
    ensures x in SuspiciousActivity(users, entries, hours, now) <==>
              exists name, c :: name in Usernames(users) && c in ScoreChanges(users, entries, name, hours, now) &&
                !c.hasNewSnap && x == Suspicious(name, c.timestamp, c.change, c.score)
  {
    var gathered := ConcatMap(AllUsers(users), UserSuspicious(users, entries, hours, now));
    SortDescSorted(gathered, SuspicionTime);
    SortDescMultiset(gathered, SuspicionTime);
    SortDescMembership(gathered, SuspicionTime, x);
    if x in gathered {
      GatheredSuspiciousFrom(users, entries, hours, now, x);
    }
    if exists name, c :: name in Usernames(users) && c in ScoreChanges(users, entries, name, hours, now) &&
         !c.hasNewSnap && x == Suspicious(name, c.timestamp, c.change, c.score) {
      var name, c :| name in Usernames(users) && c in ScoreChanges(users, entries, name, hours, now) &&
         !c.hasNewSnap && x == Suspicious(name, c.timestamp, c.change, c.score);
      GatheredSuspiciousTo(users, entries, hours, now, name, c);
    }
  }
}
