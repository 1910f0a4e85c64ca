/**
  The client's feed of recent sync outcomes: new outcomes go in front, and only the 120
  most recent are kept.
*/
module SyncActivity {
  import opened Wrappers
  import opened SyncCore

  /** The longest the feed gets. */
  const FeedLimit: nat := 120

  /** One entry of the feed: a write result as the upload reported it. */
  datatype SyncActivityItem = SyncActivityItem(
    id: string, at: string, table: string, entityId: string,
    result: Code, reasonCode: Option<string>, conflictId: Option<string>)

  /** `s.slice(0, 120)`: the first 120 entries, or all of them when there are fewer. */
  function Capped(s: seq<SyncActivityItem>): (r: seq<SyncActivityItem>)
    ensures |r| <= FeedLimit
    ensures |s| <= FeedLimit ==> r == s
    ensures |s| > FeedLimit ==> |r| == FeedLimit
    ensures r == s[..|r|]
  {
    if |s| <= FeedLimit then s else s[..FeedLimit]
  }

  class SyncActivityFeed {
    /** The `activities` signal, most recent first. */
    var activities: seq<SyncActivityItem>

    ghost predicate Valid()
      reads this
    {
      |activities| <= FeedLimit
    }

    constructor ()
      ensures Valid() && activities == []
    {
      activities := [];
    }

    /** `appendSyncActivities`: an empty batch leaves the feed alone; otherwise the batch,
        in its own order, goes in front of the previous entries and the feed is cut to 120. */
    method AppendSyncActivities(items: seq<SyncActivityItem>)
      requires Valid()
      modifies this
      ensures Valid()
      ensures items == [] ==> activities == old(activities)
      ensures items != [] ==> activities == Capped(items + old(activities))
    {
      if |items| == 0 {
        return;
      }
      activities := Capped(items + activities);
    }
  }

  /** The new items come first, in their given order, followed by as many of the previous
      entries, newest first, as fit. */
  lemma NewestFirst(items: seq<SyncActivityItem>, prev: seq<SyncActivityItem>)
    ensures var r := Capped(items + prev);
      && (|items| <= FeedLimit ==> r[..|items|] == items && r[|items|..] == Capped(prev)[..|r| - |items|])
      && (|items| >= FeedLimit ==> r == items[..FeedLimit])
  {
    var r := Capped(items + prev);
    if |items| <= FeedLimit {
      assert r[..|items|] == (items + prev)[..|items|];
      assert r[|items|..] == (items + prev)[|items|..|r|];
      assert (items + prev)[|items|..|r|] == prev[..|r| - |items|];
    }
  }

  /** A previous entry stays in the feed only while fewer than 120 entries are newer. */
  lemma OldestDropped(items: seq<SyncActivityItem>, prev: seq<SyncActivityItem>, k: nat)
    requires k < |prev|
    ensures |items| + k < FeedLimit ==> Capped(items + prev)[|items| + k] == prev[k]
    ensures |items| + k >= FeedLimit ==> |Capped(items + prev)| <= |items| + k
  {
  }
}

/**
  The switch that pauses and resumes syncing.
*/
module SyncControl {
  class SyncPauseSwitch {
    /** The `syncPaused` signal. */
    var paused: bool

    constructor ()
      ensures !IsSyncPaused()
    {
      paused := false;
    }

    /** `isSyncPaused`. */
    function IsSyncPaused(): bool
      reads this
    {
      paused
    }

    /** `setSyncPaused`: the flag afterwards reads as the value given. */
    method SetSyncPaused(next: bool)
      modifies this
      ensures IsSyncPaused() == next
    {
      paused := next;
    }

    /** `toggleSyncPaused`: the flag is negated, so two toggles restore it. */
    method ToggleSyncPaused()
      modifies this
      ensures IsSyncPaused() == !old(IsSyncPaused())
    {
      SetSyncPaused(!paused);
    }
  }
}

/**
  The three demo users and the name shown for a user id.
*/
module DemoUsers {
  import opened Wrappers

  datatype DemoUser = DemoUser(id: string, name: string)

  const AlexId: string := "11111111-1111-1111-1111-111111111111"
  const SamId: string := "22222222-2222-2222-2222-222222222222"
  const RileyId: string := "33333333-3333-3333-3333-333333333333"

  /** `Object.values(DEMO_USERS)`, in declaration order. */
  const Users: seq<DemoUser> := [DemoUser(AlexId, "Alex"), DemoUser(SamId, "Sam"), DemoUser(RileyId, "Riley")]

  /** `DEMO_DEFAULT_USER`. */
  const DefaultUser: DemoUser := Users[0]

  const UnknownName: string := "Unknown"

  /** `all.find(user => user.id === userId)`: the first user with that id. */
  function FindById(users: seq<DemoUser>, userId: string): (r: Option<DemoUser>)
    ensures r.None? <==> forall i :: 0 <= i < |users| ==> users[i].id != userId
    ensures r.Some? ==>
              exists i :: 0 <= i < |users| && users[i] == r.value && r.value.id == userId &&
                          (forall j :: 0 <= j < i ==> users[j].id != userId)
  {
    if users == [] then None
    else if users[0].id == userId then Some(users[0])
    else
      var r := FindById(users[1..], userId);
      if r.Some? then
        var i :| 0 <= i < |users[1..]| && users[1..][i] == r.value && r.value.id == userId &&
          (forall j :: 0 <= j < i ==> users[1..][j].id != userId);
        assert users[i + 1] == r.value;
        r
      else r
  }

  /** `getDemoUserName`: a missing or empty id, or one no demo user has, is "Unknown". */
  function GetDemoUserName(userId: Option<string>): (r: string)
    ensures userId.None? || userId == Some("") ==> r == UnknownName
    ensures userId == Some(AlexId) ==> r == "Alex"
    ensures userId == Some(SamId) ==> r == "Sam"
    ensures userId == Some(RileyId) ==> r == "Riley"
    ensures r != UnknownName <==> userId.Some? && exists i :: 0 <= i < |Users| && Users[i].id == userId.value
  {
    // the three ids differ in their first character
    assert AlexId[0] == '1' && SamId[0] == '2' && RileyId[0] == '3';
    assert Users[0].id == AlexId && Users[1].id == SamId && Users[2].id == RileyId;
    if userId.None? || userId.value == "" then UnknownName
    else
      var found := FindById(Users, userId.value);
      if found.Some? then found.value.name else UnknownName
  }

  /** The default user is Alex. */
  lemma DefaultUserIsAlex()
    ensures DefaultUser == DemoUser(AlexId, "Alex")
    ensures GetDemoUserName(Some(DefaultUser.id)) == "Alex"
  {
  }
}
