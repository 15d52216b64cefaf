/** The entitlement store: one record per user, created lazily with default
    values, whose free-use counter is zeroed lazily on the first touch of a
    later UTC day. The JSON document of the bot is the `State` value. */
module Store {
  import opened Optional

  /** Free generations an unpaid user gets per UTC day. */
  const FreeDailyQuota: int := 3
  const SecondsPerDay: int := 86400
  /** Length of a subscription credited on payment. */
  const SubscriptionDays: int := 30

  /** Users are keyed by the decimal string of their platform id. */
  type UserId = string

  datatype UserRecord = UserRecord(
    freeUsedToday: int,
    lastReset: int,           // UTC day number of the last quota reset
    isPaid: bool,
    paidUntil: Option<int>)   // expiry instant in seconds, if ever paid

  /** One generation request of the conversation log. */
  datatype Entry = Entry(ts: int, topic: string, result: string)

  datatype State = State(
    users: map<UserId, UserRecord>,
    conversations: map<UserId, seq<Entry>>)

  /** The UTC calendar day of an instant given in seconds since the epoch. */
  function DayOf(now: int): (d: int)
    ensures d * SecondsPerDay <= now < (d + 1) * SecondsPerDay
  {
    now / SecondsPerDay
  }

  /** The record a user gets the first time they are seen on day `today`. */
  function NewUser(today: int): UserRecord
  {
    UserRecord(0, today, false, None)
  }

  predicate WithinQuota(rec: UserRecord)
  {
    0 <= rec.freeUsedToday <= FreeDailyQuota
  }

  /** The bounds invariant every reachable state keeps. */
  predicate Valid(st: State)
  {
    forall u :: u in st.users ==> WithinQuota(st.users[u])
  }

  /** `get_user`: the stored record, or a fresh default record inserted for
      a user never seen before. Returns the new user map and the record. */
  function GetUser(users: map<UserId, UserRecord>, uid: UserId, today: int)
    : (res: (map<UserId, UserRecord>, UserRecord))
    ensures uid in res.0 && res.1 == res.0[uid]
    ensures res.0.Keys == users.Keys + {uid}
    ensures forall u :: u in users ==> res.0[u] == users[u]
    ensures uid !in users ==>
              && res.1.freeUsedToday == 0
              && res.1.lastReset == today
              && !res.1.isPaid
              && res.1.paidUntil == None
  {
    if uid in users then (users, users[uid])
    else (users[uid := NewUser(today)], NewUser(today))
  }

  /** `reset_quota`: zero the counter when `today` is strictly after the last
      reset; otherwise, also when the clock reads an earlier day, keep the
      record as it is. */
  function ResetQuota(rec: UserRecord, today: int): (r: UserRecord)
    ensures today > rec.lastReset ==> r.freeUsedToday == 0 && r.lastReset == today
    ensures today <= rec.lastReset ==> r == rec
    ensures r.isPaid == rec.isPaid && r.paidUntil == rec.paidUntil
    ensures r.lastReset >= today && r.lastReset >= rec.lastReset
    ensures WithinQuota(rec) ==> WithinQuota(r)
  {
    if today > rec.lastReset then rec.(freeUsedToday := 0, lastReset := today)
    else rec
  }

  /** Resetting twice on one day is resetting once. */
  lemma ResetIdempotent(rec: UserRecord, today: int)
    ensures ResetQuota(ResetQuota(rec, today), today) == ResetQuota(rec, today)
  {
  }

  /** The record a handler consults after `get_user` and `reset_quota`. */
  function Current(users: map<UserId, UserRecord>, uid: UserId, today: int): (r: UserRecord)
    ensures uid in users ==> r == ResetQuota(users[uid], today)
    ensures uid !in users ==> r == NewUser(today)
  {
    ResetQuota(GetUser(users, uid, today).1, today)
  }

  /** `get_user` followed by `reset_quota`, as `/start`, `/help` and
      `/status` do: the user exists afterwards with its quota reset, and no
      other user and no conversation changes. */
  function Touch(st: State, uid: UserId, today: int): (r: State)
    ensures r.users == st.users[uid := Current(st.users, uid, today)]
    ensures r.conversations == st.conversations
    ensures Valid(st) ==> Valid(r)
  {
    var (users, rec) := GetUser(st.users, uid, today);
    State(users[uid := ResetQuota(rec, today)], st.conversations)
  }

  /** Touching a user twice on the same day is touching them once. */
  lemma TouchIdempotent(st: State, uid: UserId, today: int)
    ensures Touch(Touch(st, uid, today), uid, today) == Touch(st, uid, today)
  {
    var once := Touch(st, uid, today);
    var twice := Touch(once, uid, today);
    ResetIdempotent(Current(st.users, uid, today), today);
    assert twice.users == once.users;
  }

  /** The conversation log of one user; absent means empty. */
  function Log(convs: map<UserId, seq<Entry>>, uid: UserId): seq<Entry>
  {
    if uid in convs then convs[uid] else []
  }

  /** `convs.setdefault(uid, []).append(e)`: one entry at the end of that
      user's log, every earlier entry and every other log left alone. */
  function AppendEntry(convs: map<UserId, seq<Entry>>, uid: UserId, e: Entry)
    : (r: map<UserId, seq<Entry>>)
    ensures r.Keys == convs.Keys + {uid}
    ensures |Log(r, uid)| == |Log(convs, uid)| + 1
    ensures Log(r, uid)[..|Log(convs, uid)|] == Log(convs, uid)
    ensures Log(r, uid)[|Log(convs, uid)|] == e
    ensures forall u :: u != uid ==> Log(r, u) == Log(convs, u)
  {
    convs[uid := Log(convs, uid) + [e]]
  }
}
