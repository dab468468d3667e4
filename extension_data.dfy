/** The per-user records the browser extension keeps under `scoreData`
    (shared by the content script, the background worker and the popup). */
module ExtensionData {

  /** One reading: `{score, hasNewSnap, timestamp}` with a millisecond timestamp. */
  datatype ScoreEntry = ScoreEntry(score: int, hasNewSnap: bool, timestamp: int)

  /** The alert `type` field: 'suspicious' or 'normal'. */
  datatype AlertType = Suspicious | Normal
  {
    function Name(): string
    {
      match this
      case Suspicious => "suspicious"
      case Normal => "normal"
    }
  }

  datatype Alert = Alert(kind: AlertType, message: string, scoreIncrease: int, timestamp: int)

  /** `{scores: [...], alerts: [...]}` for one username. */
  datatype UserData = UserData(scores: seq<ScoreEntry>, alerts: seq<Alert>)

  /** Readings kept per user. */
  const MaxScores: nat := 100
  /** Alerts kept per user. */
  const MaxAlerts: nat := 50

  const EmptyUserData := UserData([], [])

  function EntryTime(e: ScoreEntry): int { e.timestamp }

  function AlertTime(a: Alert): int { a.timestamp }
}
