/** The decision rules of the desktop dashboard (src/ui/dashboard.py): the time
    range choices, the alert levels and tags, the ordering and cap of the alert
    list, the last-change label and the points of the score graph. Widget code is
    left out; what each widget is given is modelled. */
module Dashboard {
  import opened Base
  import opened Text
  import opened Sorting
  import opened Database

  /** `_parse_time_range`: a range name to a number of hours, 24 by default. */
  function ParseTimeRange(timeRange: string): (hours: int)
    ensures timeRange == "1h" ==> hours == 1
    ensures timeRange == "6h" ==> hours == 6
    ensures timeRange == "24h" ==> hours == 24
    ensures timeRange == "7d" ==> hours == 7 * 24
    ensures timeRange == "30d" ==> hours == 30 * 24
    ensures timeRange !in {"1h", "6h", "24h", "7d", "30d"} ==> hours == 24
  {
    var rangeMap := map["1h" := 1, "6h" := 6, "24h" := 24, "7d" := 168, "30d" := 720];
    if timeRange in rangeMap then rangeMap[timeRange] else 24
  }

  // ----- suspicious activity levels -----

  datatype AlertLevel = Low | Medium | High
  {
    function Rank(): nat
    {
      match this
      case Low => 0
      case Medium => 1
      case High => 2
    }

    /** The level's column text and row tag. */
    function Name(): string
    {
      match this
      case Low => "LOW"
      case Medium => "MEDIUM"
      case High => "HIGH"
    }
  }

  /** The level `_update_suspicious_ui` gives a score increase. */
  function LevelOf(scoreIncrease: int): (level: AlertLevel)
    ensures level == High <==> scoreIncrease >= 50
    ensures level == Medium <==> 20 <= scoreIncrease < 50
    ensures level == Low <==> scoreIncrease < 20
  {
    if scoreIncrease >= 50 then High
    else if scoreIncrease >= 20 then Medium
    else Low
  }

  /** A larger increase never gets a lower level. */
  lemma LevelMonotone(a: int, b: int)
    requires a <= b
    ensures LevelOf(a).Rank() <= LevelOf(b).Rank()
  {
  }

  // ----- the alert list -----

  /** The tag of an alert line: "warning" without a new snap, "normal" with one. */
  function AlertTag(hasNewSnap: bool): (tag: string)
    ensures tag == "warning" <==> !hasNewSnap
    ensures tag == "normal" <==> hasNewSnap
  {
    if !hasNewSnap then "warning" else "normal"
  }

  /** One line of the alert list: its time, user, increase and tag. */
  datatype DashAlert = DashAlert(timestamp: int, username: string, change: int, tag: string)

  function DashAlertTime(a: DashAlert): int { a.timestamp }

  /** The alert lines of one user's changes, in change order. */
  function AlertsOf(username: string, changes: seq<Change>): seq<DashAlert>
  {
    if changes == [] then []
    else
      var c := changes[|changes| - 1];
      AlertsOf(username, changes[..|changes| - 1]) + [DashAlert(c.timestamp, username, c.change, AlertTag(c.hasNewSnap))]
  }

  /** The alert lines of one user: the changes of the last 24 hours. */
  function UserAlerts(users: seq<User>, entries: seq<Entry>, now: int): string -> seq<DashAlert>
  {
    (name: string) => AlertsOf(name, ScoreChanges(users, entries, name, 24, now))
  }

  /** Every user's alert lines before sorting. */
  function AllDashAlerts(users: seq<User>, entries: seq<Entry>, now: int): seq<DashAlert>
  {
    ConcatMap(AllUsers(users), UserAlerts(users, entries, now))
  }

  /** What `_update_alerts_ui` shows: newest first, at most 50. */
  function ShownAlerts(users: seq<User>, entries: seq<Entry>, now: int): seq<DashAlert>
  {
    Take(SortDesc(AllDashAlerts(users, entries, now), DashAlertTime), 50)
  }

  /** `_update_alerts_ui`: the loop over the users and their changes, then the
      sort and the cap. */
  method UpdateAlerts(db: DatabaseManager, now: int) returns (shown: seq<DashAlert>)
    ensures shown == ShownAlerts(db.users, db.entries, now)
  {
    var alerts: seq<DashAlert> := [];
    var users := AllUsers(db.users);
    var perUser := UserAlerts(db.users, db.entries, now);
    var i := 0;
    while i < |users|
      invariant 0 <= i <= |users|
      invariant alerts == ConcatMap(users[..i], perUser)
    {
      var username := users[i];
      var changes := db.GetScoreChanges(username, 24, now);
      alerts := AppendAlerts(alerts, username, changes);
      ConcatMapSnoc(users, i, perUser);
      i := i + 1;
    }
    assert users[..|users|] == users;
    alerts := SortDesc(alerts, DashAlertTime);
    shown := Take(alerts, 50);
  }

  /** The inner loop of `_update_alerts_ui`: one line per change. */
  method AppendAlerts(alerts: seq<DashAlert>, username: string, changes: seq<Change>) returns (r: seq<DashAlert>)
    ensures r == alerts + AlertsOf(username, changes)
  {
    r := alerts;
    var j := 0;
    while j < |changes|
      invariant 0 <= j <= |changes|
      invariant r == alerts + AlertsOf(username, changes[..j])
    {
      var change := changes[j];
      assert changes[..j + 1][..j] == changes[..j];
      var alertType := if !change.hasNewSnap then "warning" else "normal";
      r := r + [DashAlert(change.timestamp, username, change.change, alertType)];
      j := j + 1;
    }
    assert changes[..|changes|] == changes;
  }

  lemma {:induction false} AlertsOfMembership(username: string, changes: seq<Change>, a: DashAlert)
    ensures a in AlertsOf(username, changes) <==>
              exists c :: c in changes && a == DashAlert(c.timestamp, username, c.change, AlertTag(c.hasNewSnap))
  {
    if changes != [] {
      AlertsOfMembership(username, changes[..|changes| - 1], a);
      assert changes == changes[..|changes| - 1] + [changes[|changes| - 1]];
    }
  }

  /** An alert line is a change of some user in the last 24 hours. */
  lemma AllDashAlertsFrom(users: seq<User>, entries: seq<Entry>, now: int, a: DashAlert)
    requires a in AllDashAlerts(users, entries, now)
    ensures exists name, c :: name in Usernames(users) && c in ScoreChanges(users, entries, name, 24, now) &&
              a == DashAlert(c.timestamp, name, c.change, AlertTag(c.hasNewSnap))
  {
    var names := AllUsers(users);
    ConcatMapMembership(names, UserAlerts(users, entries, now), a);
    var k :| 0 <= k < |names| && a in UserAlerts(users, entries, now)(names[k]);
    var name := names[k];
    AlertsOfMembership(name, ScoreChanges(users, entries, name, 24, now), a);
    AllUsersSpec(users);
    assert name in multiset(names);
    assert name in multiset(Usernames(users));
  }

  /** Every change of every user in the last 24 hours gives an alert line. */
  lemma AllDashAlertsTo(users: seq<User>, entries: seq<Entry>, now: int, name: string, c: Change)
    requires name in Usernames(users) && c in ScoreChanges(users, entries, name, 24, now)
    ensures DashAlert(c.timestamp, name, c.change, AlertTag(c.hasNewSnap)) in AllDashAlerts(users, entries, now)
  {
    var a := DashAlert(c.timestamp, name, c.change, AlertTag(c.hasNewSnap));
    var names := AllUsers(users);
    var perUser := UserAlerts(users, entries, now);
    AlertsOfMembership(name, ScoreChanges(users, entries, name, 24, now), a);
    AllUsersSpec(users);
    assert name in multiset(Usernames(users));
    assert name in multiset(names);
    var k :| 0 <= k < |names| && names[k] == name;
    ConcatMapMembership(names, perUser, a);
  }

  /** The alert lines are exactly the changes of the users in the last 24 hours,
      each tagged by its snap flag. */
  lemma AllDashAlertsMembership(users: seq<User>, entries: seq<Entry>, now: int, a: DashAlert)
    ensures a in AllDashAlerts(users, entries, now) <==>
              exists name, c :: name in Usernames(users) && c in ScoreChanges(users, entries, name, 24, now) &&
                a == DashAlert(c.timestamp, name, c.change, AlertTag(c.hasNewSnap))
  {
    if a in AllDashAlerts(users, entries, now) {
      AllDashAlertsFrom(users, entries, now, a);
    }
    if exists name, c :: name in Usernames(users) && c in ScoreChanges(users, entries, name, 24, now) &&
         a == DashAlert(c.timestamp, name, c.change, AlertTag(c.hasNewSnap)) {
      var name, c :| name in Usernames(users) && c in ScoreChanges(users, entries, name, 24, now) &&
         a == DashAlert(c.timestamp, name, c.change, AlertTag(c.hasNewSnap));
      AllDashAlertsTo(users, entries, now, name, c);
    }
  }

  /** A prefix of a list sorted newest first holds nothing older than what it leaves out. */
  lemma {:induction false} TakeNewest(all: seq<DashAlert>, n: nat, a: DashAlert, b: DashAlert)
    requires a in all && a !in Take(SortDesc(all, DashAlertTime), n) && b in Take(SortDesc(all, DashAlertTime), n)
    ensures b.timestamp >= a.timestamp
  {
    var sorted := SortDesc(all, DashAlertTime);
    var shown := Take(sorted, n);
    SortDescSorted(all, DashAlertTime);
    SortDescMembership(all, DashAlertTime, a);
    assert shown == sorted[..|shown|];
    PrefixNewest(sorted, DashAlertTime, |shown|, a, b);
  }

  /** Sorting and cutting a list of alert lines keeps min(n, 50) of them, newest
      first, none more often than in the list. */
  lemma ShownAlertsTaken(all: seq<DashAlert>)
    ensures |Take(SortDesc(all, DashAlertTime), 50)| == Min(|all|, 50)
    ensures multiset(Take(SortDesc(all, DashAlertTime), 50)) <= multiset(all)
    ensures SortedDesc(Take(SortDesc(all, DashAlertTime), 50), DashAlertTime)
  {
    var sorted := SortDesc(all, DashAlertTime);
    var shown := Take(sorted, 50);
    SortDescSorted(all, DashAlertTime);
    SortDescMultiset(all, DashAlertTime);
    assert |sorted| == |all| by {
      assert |multiset(sorted)| == |multiset(all)|;
    }
    assert shown == sorted[..|shown|];
    PrefixMultiset(sorted, |shown|);
  }

  /** The alert list holds the newest 50 lines (all of them when there are fewer),
      newest first, no line more often than it was gathered; each line is a
      change of some user in the last 24 hours, and no line left out is newer
      than a line shown. */
  lemma ShownAlertsSpec(users: seq<User>, entries: seq<Entry>, now: int, a: DashAlert, b: DashAlert)
    ensures |ShownAlerts(users, entries, now)| == Min(|AllDashAlerts(users, entries, now)|, 50)
    ensures multiset(ShownAlerts(users, entries, now)) <= multiset(AllDashAlerts(users, entries, now))
    ensures SortedDesc(ShownAlerts(users, entries, now), DashAlertTime)
    ensures a in ShownAlerts(users, entries, now) ==>
              exists name, c :: name in Usernames(users) && c in ScoreChanges(users, entries, name, 24, now) &&
                a == DashAlert(c.timestamp, name, c.change, AlertTag(c.hasNewSnap))
    ensures (a in AllDashAlerts(users, entries, now) && a !in ShownAlerts(users, entries, now) &&
             b in ShownAlerts(users, entries, now)) ==> b.timestamp >= a.timestamp
  {
    var all := AllDashAlerts(users, entries, now);
    var shown := ShownAlerts(users, entries, now);
    ShownAlertsTaken(all);
    if a in shown {
      SortDescMembership(all, DashAlertTime, a);
      AllDashAlertsFrom(users, entries, now, a);
    }
    if a in all && a !in shown && b in shown {
      TakeNewest(all, 50, a, b);
    }
  }

  // ----- the statistics table -----

  /** The newest score minus the one before it, 0 with fewer than two readings. */
  function LastChange(latestScores: seq<Entry>): int
  {
    if |latestScores| >= 2 then latestScores[0].score - latestScores[1].score else 0
  }

  /** The "Last Change" cell of `_update_stats_ui`, given `get_user_scores(limit=2)`. */
  function LastChangeLabel(latestScores: seq<Entry>): (cell: string)
    ensures |cell| >= 1
  {
    if |latestScores| >= 2 then
      var lastChange := latestScores[0].score - latestScores[1].score;
      if lastChange > 0 then "+" + IntToString(lastChange) else IntToString(lastChange)
    else "0"
  }

  /** The value a cell denotes: an optional sign followed by decimal digits. */
  function SignedValue(cell: string): int
  {
    if cell != [] && cell[0] == '+' && AllDigits(cell[1..]) then DecimalValue(cell[1..])
    else if cell != [] && cell[0] == '-' && AllDigits(cell[1..]) then -(DecimalValue(cell[1..]) as int)
    else if AllDigits(cell) then DecimalValue(cell)
    else 0
  }

  /** The cell starts with '+' exactly for an increase, is "0" with fewer than two
      readings, and reads back as the change itself. */
  lemma LastChangeLabelSpec(latestScores: seq<Entry>)
    ensures LastChangeLabel(latestScores)[0] == '+' <==> LastChange(latestScores) > 0
    ensures |latestScores| < 2 ==> LastChangeLabel(latestScores) == "0"
    ensures SignedValue(LastChangeLabel(latestScores)) == LastChange(latestScores)
  {
    var cell := LastChangeLabel(latestScores);
    var d := LastChange(latestScores);
    if d > 0 {
      NatToStringRoundTrip(d);
      assert cell == "+" + NatToString(d);
      assert cell[1..] == NatToString(d);
    } else if d < 0 {
      NatToStringRoundTrip(-d);
      assert cell == "-" + NatToString(-d);
      assert cell[1..] == NatToString(-d);
    } else {
      NatToStringRoundTrip(0);
      assert NatToString(0) == "0";
      assert cell == "0";
    }
  }

  // ----- the score graph -----

  /** A plotted point: time and score. */
  datatype Point = Point(time: int, score: int)

  function PointTime(p: Point): int { p.time }

  /** The filter loop of `_update_graph_ui`: the readings inside the window. */
  function PointsSince(scores: seq<Entry>, cutoff: int): seq<Point>
  {
    if scores == [] then []
    else
      var s := scores[|scores| - 1];
      PointsSince(scores[..|scores| - 1], cutoff) + (if s.timestamp >= cutoff then [Point(s.timestamp, s.score)] else [])
  }

  /** The points drawn for a user: the window's readings among the newest 1000,
      oldest first. */
  function PlottedPoints(users: seq<User>, entries: seq<Entry>, username: string, hours: int, now: int): seq<Point>
  {
    SortAsc(PointsSince(UserScores(users, entries, username, 1000), WindowStart(hours, now)), PointTime)
  }

  /** The per-user part of `_update_graph_ui`: fetch, filter in a loop, sort. */
  method PlotPoints(db: DatabaseManager, username: string, hours: int, now: int) returns (points: seq<Point>)
    ensures points == PlottedPoints(db.users, db.entries, username, hours, now)
  {
    var scores := UserScores(db.users, db.entries, username, 1000);
    var cutoffTime := WindowStart(hours, now);
    var filteredScores: seq<Point> := [];
    var i := 0;
    while i < |scores|
      invariant 0 <= i <= |scores|
      invariant filteredScores == PointsSince(scores[..i], cutoffTime)
    {
      var s := scores[i];
      assert scores[..i + 1][..i] == scores[..i];
      if s.timestamp >= cutoffTime {
        filteredScores := filteredScores + [Point(s.timestamp, s.score)];
      }
      i := i + 1;
    }
    assert scores[..|scores|] == scores;
    points := SortAsc(filteredScores, PointTime);
  }

  lemma {:induction false} PointsSinceMembership(scores: seq<Entry>, cutoff: int, p: Point)
    ensures p in PointsSince(scores, cutoff) <==>
              exists e :: e in scores && e.timestamp >= cutoff && p == Point(e.timestamp, e.score)
  {
    if scores != [] {
      PointsSinceMembership(scores[..|scores| - 1], cutoff, p);
      assert scores == scores[..|scores| - 1] + [scores[|scores| - 1]];
    }
  }

  /** The graph's points are oldest first, the sort keeps every filtered point as
      often as it was filtered, and a point is drawn exactly when one of the
      user's newest 1000 readings lies inside the window. */
  lemma PlottedPointsSpec(users: seq<User>, entries: seq<Entry>, username: string, hours: int, now: int, p: Point)
    ensures SortedAsc(PlottedPoints(users, entries, username, hours, now), PointTime)
    ensures multiset(PlottedPoints(users, entries, username, hours, now)) ==
              multiset(PointsSince(UserScores(users, entries, username, 1000), WindowStart(hours, now)))
    ensures p in PlottedPoints(users, entries, username, hours, now) <==>
              exists e :: e in UserScores(users, entries, username, 1000) && e.timestamp >= WindowStart(hours, now) &&
                p == Point(e.timestamp, e.score)
  {
    var filtered := PointsSince(UserScores(users, entries, username, 1000), WindowStart(hours, now));
    SortAscSorted(filtered, PointTime);
    SortAscMultiset(filtered, PointTime);
    SortAscMembership(filtered, PointTime, p);
    PointsSinceMembership(UserScores(users, entries, username, 1000), WindowStart(hours, now), p);
  }
}
