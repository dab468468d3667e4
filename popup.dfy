/** The extension popup (chrome-extension/js/popup.js): a local mirror of the
    content script's state, updated only when the content script answers with
    success. A response is given to each operation as the flag `ok`, which stands
    for `response && response.success`. */
module Popup {
  import opened Base
  import opened Text
  import opened ExtensionData

  /** The messages the popup sends to the content script. */
  datatype Message =
    | GetStatusMsg
    | StartTrackingMsg
    | StopTrackingMsg
    | AddUserMsg(username: string)
    | RemoveUserMsg(username: string)
    | ClearUsersMsg
    | ClearAlertsMsg

  /** The fields of a successful `getStatus` answer. */
  datatype Status = Status(isTracking: bool, trackedUsers: seq<string>,
                           scoreData: map<string, UserData>, alerts: seq<Alert>)

  function Other(username: string): string -> bool
  {
    (u: string) => u != username
  }

  /** `trackedUsers.filter(u => u !== username)`: every occurrence goes, the rest
      keep their order. */
  function Without(users: seq<string>, username: string): (r: seq<string>)
    ensures username !in r
    ensures forall u :: u != username ==> (u in r <==> u in users)
    ensures forall u :: u != username ==> multiset(r)[u] == multiset(users)[u]
    ensures IsSubseq(r, users)
  {
    var r := Filter(users, Other(username));
    FilterMembership(users, Other(username), username);
    forall u | u != username
      ensures (u in r <==> u in users) && multiset(r)[u] == multiset(users)[u]
    {
      FilterMembership(users, Other(username), u);
      FilterMultiset(users, Other(username), u);
    }
    FilterSuffixSubseq(users, 0, Other(username));
    assert users[0..] == users;
    r
  }

  /** Adding a name that was not tracked and then removing it restores the list. */
  lemma WithoutAdded(users: seq<string>, username: string)
    requires username !in users
    ensures Without(users + [username], username) == users
  {
    FilterAppend(users, [username], Other(username));
    FilterAll(users, Other(username));
    assert Filter([username], Other(username)) == [];
  }

  /** The alerts `updateAlerts` renders: the first ten. */
  function RenderedAlerts(alerts: seq<Alert>): (r: seq<Alert>)
    ensures |r| == Min(|alerts|, 10)
    ensures r == alerts[..|r|]
  {
    Take(alerts, 10)
  }

  /** The score `updateUserList` shows for a user: the score of the last reading,
      or None for 'Unknown' (no record, or a record without readings). */
  function LatestScore(scoreData: map<string, UserData>, username: string): (r: Option<int>)
    ensures r.None? <==> username !in scoreData || scoreData[username].scores == []
    ensures r.Some? ==> var s := scoreData[username].scores; r.value == s[|s| - 1].score
  {
    if username in scoreData && |scoreData[username].scores| > 0 then
      Some(scoreData[username].scores[|scoreData[username].scores| - 1].score)
    else None
  }

  /** The `TrackerPopup` object; `input` is the value of the username text box. */
  class TrackerPopup {
    var isTracking: bool
    var trackedUsers: seq<string>
    var scoreData: map<string, UserData>
    var alerts: seq<Alert>
    var input: string

    constructor ()
      ensures !isTracking && trackedUsers == [] && scoreData == map[] && alerts == [] && input == []
    {
      isTracking, trackedUsers, scoreData, alerts, input := false, [], map[], [], [];
    }

    /** `loadStatus`: a successful answer replaces the four mirrored fields; an
        error answer (None) leaves everything as it was. */
    method LoadStatus(response: Option<Status>) returns (sent: Message)
      modifies this
      ensures sent == GetStatusMsg
      ensures response.Some? ==>
        isTracking == response.value.isTracking && trackedUsers == response.value.trackedUsers &&
        scoreData == response.value.scoreData && alerts == response.value.alerts
      ensures response.None? ==>
        isTracking == old(isTracking) && trackedUsers == old(trackedUsers) &&
        scoreData == old(scoreData) && alerts == old(alerts)
      ensures input == old(input)
    {
      sent := GetStatusMsg;
      if response.Some? {
        isTracking := response.value.isTracking;
        trackedUsers := response.value.trackedUsers;
        scoreData := response.value.scoreData;
        alerts := response.value.alerts;
      }
    }

    /** `toggleTracking`: asks to stop when tracking, to start otherwise, and
        flips the flag only on success. */
    method ToggleTracking(ok: bool) returns (sent: Message)
      modifies this
      ensures sent == if old(isTracking) then StopTrackingMsg else StartTrackingMsg
      ensures isTracking == (if ok then !old(isTracking) else old(isTracking))
      ensures trackedUsers == old(trackedUsers) && scoreData == old(scoreData)
      ensures alerts == old(alerts) && input == old(input)
    {
      sent := if isTracking then StopTrackingMsg else StartTrackingMsg;
      if ok {
        isTracking := !isTracking;
      }
    }

    /** `addUser`: the trimmed input is ignored when empty; a name already listed
        only clears the input; otherwise the name is sent, and appended (and the
        input cleared) when the answer is a success. */
    method AddUser(ok: bool) returns (sent: Option<Message>)
      modifies this
      ensures var name := Trim(old(input));
        && (name == [] ==> sent.None? && input == old(input))
        && (name != [] && name in old(trackedUsers) ==> sent.None? && input == [])
        && (name != [] && name !in old(trackedUsers) ==> sent == Some(AddUserMsg(name)))
        && (trackedUsers == if sent.Some? && ok then old(trackedUsers) + [name] else old(trackedUsers))
        && (sent.Some? ==> input == if ok then [] else old(input))
      ensures sent.Some? && ok ==> multiset(trackedUsers)[Trim(old(input))] == 1
      ensures isTracking == old(isTracking) && scoreData == old(scoreData) && alerts == old(alerts)
    {
      var username := Trim(input);
      if username == [] {
        return None;
      }
      if username in trackedUsers {
        input := [];
        return None;
      }
      sent := Some(AddUserMsg(username));
      if ok {
        assert multiset(trackedUsers)[username] == 0;
        trackedUsers := trackedUsers + [username];
        input := [];
      }
    }

    /** `removeUser`: on success every occurrence of the name leaves the list and
        its record leaves `scoreData`. */
    method RemoveUser(username: string, ok: bool) returns (sent: Message)
      modifies this
      ensures sent == RemoveUserMsg(username)
      ensures trackedUsers == if ok then Without(old(trackedUsers), username) else old(trackedUsers)
      ensures scoreData == if ok then old(scoreData) - {username} else old(scoreData)
      ensures ok ==> username !in trackedUsers && username !in scoreData
      ensures isTracking == old(isTracking) && alerts == old(alerts) && input == old(input)
    {
      sent := RemoveUserMsg(username);
      if ok {
        trackedUsers := Without(trackedUsers, username);
        scoreData := scoreData - {username};
      }
    }

    /** `clearUsers`: nothing happens for an empty list or when the user does not
        confirm; on success both the list and the records are emptied. */
    method ClearUsers(confirmed: bool, ok: bool) returns (sent: Option<Message>)
      modifies this
      ensures sent.Some? <==> old(trackedUsers) != [] && confirmed
      ensures sent.Some? ==> sent.value == ClearUsersMsg
      ensures sent.Some? && ok ==> trackedUsers == [] && scoreData == map[]
      ensures !(sent.Some? && ok) ==> trackedUsers == old(trackedUsers) && scoreData == old(scoreData)
      ensures isTracking == old(isTracking) && alerts == old(alerts) && input == old(input)
    {
      if |trackedUsers| == 0 {
        return None;
      }
      if confirmed {
        sent := Some(ClearUsersMsg);
        if ok {
          trackedUsers := [];
          scoreData := map[];
        }
      } else {
        sent := None;
      }
    }

    /** `clearAlerts`: nothing happens for an empty list; on success the alerts
        are emptied. */
    method ClearAlerts(ok: bool) returns (sent: Option<Message>)
      modifies this
      ensures sent.Some? <==> old(alerts) != []
      ensures sent.Some? ==> sent.value == ClearAlertsMsg
      ensures alerts == if sent.Some? && ok then [] else old(alerts)
      ensures isTracking == old(isTracking) && trackedUsers == old(trackedUsers)
      ensures scoreData == old(scoreData) && input == old(input)
    {
      if |alerts| == 0 {
        return None;
      }
      sent := Some(ClearAlertsMsg);
      if ok {
        alerts := [];
      }
    }
  }
}
