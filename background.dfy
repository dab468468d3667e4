/** The extension's background worker (chrome-extension/js/background.js): the
    daily cleanup of the stored per-user histories and the message dispatch. */
module Background {
  import opened Base
  import opened ExtensionData

  /** Thirty days in milliseconds. */
  const RetentionMs: int := 30 * 24 * 60 * 60 * 1000

  /** `thirtyDaysAgo`: entries stamped at or before this instant are dropped. */
  function CutOff(now: int): int { now - RetentionMs }

  function NewerScore(cutoff: int): ScoreEntry -> bool
  {
    (e: ScoreEntry) => e.timestamp > cutoff
  }

  function NewerAlert(cutoff: int): Alert -> bool
  {
    (a: Alert) => a.timestamp > cutoff
  }

  /** One user's record after cleanup: keep the last 100 readings and the last
      50 alerts, then drop everything not newer than the cut-off. */
  function CleanUser(ud: UserData, now: int): UserData
  {
    UserData(Filter(LastN(ud.scores, MaxScores), NewerScore(CutOff(now))),
             Filter(LastN(ud.alerts, MaxAlerts), NewerAlert(CutOff(now))))
  }

  /** `cleanupOldData` over the `scoreData` read from storage (the read and the
      write back are left out); the loop visits each username once, in any order. */
  method CleanupOldData(scoreData: map<string, UserData>, now: int) returns (cleaned: map<string, UserData>)
    ensures cleaned.Keys == scoreData.Keys
    ensures forall u :: u in cleaned ==> cleaned[u] == CleanUser(scoreData[u], now)
    ensures forall u :: u in cleaned ==> |cleaned[u].scores| <= MaxScores && |cleaned[u].alerts| <= MaxAlerts
  {
    var thirtyDaysAgo := now - 30 * 24 * 60 * 60 * 1000;
    cleaned := scoreData;
    var pending := scoreData.Keys;
    while pending != {}
      invariant pending <= scoreData.Keys
      invariant cleaned.Keys == scoreData.Keys
      invariant forall u :: u in cleaned && u !in pending ==> cleaned[u] == CleanUser(scoreData[u], now)
      invariant forall u :: u in pending ==> cleaned[u] == scoreData[u]
      decreases pending
    {
      var username :| username in pending;
      var userData := cleaned[username];
      var scores := userData.scores;
      var alerts := userData.alerts;
      if |scores| > 100 {
        scores := scores[|scores| - 100..];
      }
      if |alerts| > 50 {
        alerts := alerts[|alerts| - 50..];
      }
      scores := Filter(scores, NewerScore(thirtyDaysAgo));
      alerts := Filter(alerts, NewerAlert(thirtyDaysAgo));
      cleaned := cleaned[username := UserData(scores, alerts)];
      pending := pending - {username};
    }
    forall u | u in cleaned
      ensures |cleaned[u].scores| <= MaxScores && |cleaned[u].alerts| <= MaxAlerts
    {
      CleanUserBounds(scoreData[u], now);
    }
  }

  /** At most 100 readings and 50 alerts remain. */
  lemma CleanUserBounds(ud: UserData, now: int)
    ensures |CleanUser(ud, now).scores| <= MaxScores
    ensures |CleanUser(ud, now).alerts| <= MaxAlerts
  {
  }

  /** Everything that remains is newer than the cut-off. */
  lemma CleanUserRecent(ud: UserData, now: int)
    ensures forall i :: 0 <= i < |CleanUser(ud, now).scores| ==> CleanUser(ud, now).scores[i].timestamp > now - RetentionMs
    ensures forall i :: 0 <= i < |CleanUser(ud, now).alerts| ==> CleanUser(ud, now).alerts[i].timestamp > now - RetentionMs
  {
    FilterSatisfies(LastN(ud.scores, MaxScores), NewerScore(CutOff(now)));
    FilterSatisfies(LastN(ud.alerts, MaxAlerts), NewerAlert(CutOff(now)));
  }

  /** What remains is an order-preserving subsequence of the original, and an entry
      remains exactly when it is among the last 100 (50) and newer than the cut-off,
      with the same multiplicity. */
  lemma CleanUserSurvivors(ud: UserData, now: int, e: ScoreEntry, a: Alert)
    ensures IsSubseq(CleanUser(ud, now).scores, ud.scores)
    ensures IsSubseq(CleanUser(ud, now).alerts, ud.alerts)
    ensures e in CleanUser(ud, now).scores <==> e in LastN(ud.scores, MaxScores) && e.timestamp > CutOff(now)
    ensures a in CleanUser(ud, now).alerts <==> a in LastN(ud.alerts, MaxAlerts) && a.timestamp > CutOff(now)
    ensures multiset(CleanUser(ud, now).scores)[e] ==
              if e.timestamp > CutOff(now) then multiset(LastN(ud.scores, MaxScores))[e] else 0
    ensures multiset(CleanUser(ud, now).alerts)[a] ==
              if a.timestamp > CutOff(now) then multiset(LastN(ud.alerts, MaxAlerts))[a] else 0
  {
    var ks := |ud.scores| - |LastN(ud.scores, MaxScores)|;
    assert LastN(ud.scores, MaxScores) == ud.scores[ks..];
    FilterSuffixSubseq(ud.scores, ks, NewerScore(CutOff(now)));
    var ka := |ud.alerts| - |LastN(ud.alerts, MaxAlerts)|;
    assert LastN(ud.alerts, MaxAlerts) == ud.alerts[ka..];
    FilterSuffixSubseq(ud.alerts, ka, NewerAlert(CutOff(now)));
    FilterMembership(LastN(ud.scores, MaxScores), NewerScore(CutOff(now)), e);
    FilterMembership(LastN(ud.alerts, MaxAlerts), NewerAlert(CutOff(now)), a);
    FilterMultiset(LastN(ud.scores, MaxScores), NewerScore(CutOff(now)), e);
    FilterMultiset(LastN(ud.alerts, MaxAlerts), NewerAlert(CutOff(now)), a);
  }

  /** Cleaning twice with the same `now` changes nothing further. */
  lemma CleanUserIdempotent(ud: UserData, now: int)
    ensures CleanUser(CleanUser(ud, now), now) == CleanUser(ud, now)
  {
    var c := CleanUser(ud, now);
    FilterIdempotent(LastN(ud.scores, MaxScores), NewerScore(CutOff(now)));
    FilterIdempotent(LastN(ud.alerts, MaxAlerts), NewerAlert(CutOff(now)));
    assert LastN(c.scores, MaxScores) == c.scores;
    assert LastN(c.alerts, MaxAlerts) == c.alerts;
  }

  /** A second cleanup of the whole store with the same `now` is a no-op. */
  lemma CleanupIdempotent(scoreData: map<string, UserData>, once: map<string, UserData>,
                          twice: map<string, UserData>, now: int)
    requires once.Keys == scoreData.Keys && forall u :: u in once ==> once[u] == CleanUser(scoreData[u], now)
    requires twice.Keys == once.Keys && forall u :: u in twice ==> twice[u] == CleanUser(once[u], now)
    ensures twice == once
  {
    forall u | u in twice
      ensures twice[u] == once[u]
    {
      CleanUserIdempotent(scoreData[u], now);
    }
  }

  // ----- messages -----

  datatype Request = Request(action: string, title: string, message: string, kind: string)

  datatype Response = Success | StorageData | Error(message: string)

  datatype Notification = Notification(title: string, message: string, priority: int)

  /** `showNotification`'s priority: 2 for a suspicious alert, 1 for anything else. */
  function Priority(kind: string): (p: int)
    ensures p == 2 <==> kind == "suspicious"
    ensures p == 1 <==> kind != "suspicious"
  {
    if kind == "suspicious" then 2 else 1
  }

  /** `handleMessage`: the response for an action and the notification it raises. */
  function HandleMessage(request: Request): (r: (Response, Option<Notification>))
    ensures r.0.Error? <==> request.action !in {"showNotification", "getStorageData", "setStorageData"}
    ensures r.0.Error? ==> r.0.message == "Unknown action"
    ensures r.0 == StorageData <==> request.action == "getStorageData"
    ensures r.0 == Success <==> request.action in {"showNotification", "setStorageData"}
    ensures r.1.Some? <==> request.action == "showNotification"
    ensures r.1.Some? ==> r.1.value.title == request.title && r.1.value.message == request.message
    ensures r.1.Some? ==> (r.1.value.priority == 2 <==> request.kind == "suspicious")
  {
    match request.action
    case "showNotification" =>
      (Success, Some(Notification(request.title, request.message, Priority(request.kind))))
    case "getStorageData" => (StorageData, None)
    case "setStorageData" => (Success, None)
    case _ => (Error("Unknown action"), None)
  }
}
