/** The usage gate of `/ideas` and the read-only quota report of `/status`. */
module UsageGate {
  import opened Optional
  import opened Text
  import opened Store

  datatype Decision = Allowed(rec: UserRecord) | QuotaExhausted

  /** The decision on a record whose quota has already been reset: a paid
      user passes untouched, an unpaid one passes, and is charged one use,
      only while below the daily quota. `paidUntil` is never looked at. */
  function CheckAndConsume(rec: UserRecord): (d: Decision)
    ensures d.Allowed? <==> rec.isPaid || rec.freeUsedToday < FreeDailyQuota
    ensures d.Allowed? && rec.isPaid ==> d.rec == rec
    ensures d.Allowed? && !rec.isPaid ==>
              d.rec == rec.(freeUsedToday := rec.freeUsedToday + 1)
    ensures WithinQuota(rec) && d.Allowed? ==> WithinQuota(d.rec)
  {
    if !rec.isPaid then
      if rec.freeUsedToday >= FreeDailyQuota then QuotaExhausted
      else Allowed(rec.(freeUsedToday := rec.freeUsedToday + 1))
    else Allowed(rec)
  }

  /** The expiry instant has no say in the decision. */
  lemma GateIgnoresPaidUntil(rec: UserRecord, until: Option<int>)
    ensures CheckAndConsume(rec.(paidUntil := until)).Allowed? == CheckAndConsume(rec).Allowed?
  {
  }

  /** Starting from a fresh counter an unpaid user is allowed exactly
      `FreeDailyQuota` times in a row and refused on the next request. */
  lemma UnpaidAllowedQuotaTimes(rec: UserRecord)
    requires !rec.isPaid && rec.freeUsedToday == 0
    ensures var d1 := CheckAndConsume(rec);
            && d1.Allowed?
            && var d2 := CheckAndConsume(d1.rec);
            && d2.Allowed?
            && var d3 := CheckAndConsume(d2.rec);
            && d3.Allowed?
            && d3.rec.freeUsedToday == FreeDailyQuota
            && CheckAndConsume(d3.rec) == QuotaExhausted
  {
  }

  datatype IdeasReply = UsageHint | QuotaNotice | Generated(text: string)

  /** The gate and the log of `/ideas` on a user already fetched and reset:
      a refused request changes nothing; an allowed one stores the charged
      record and appends one entry holding the topic and the generator's
      answer `generated` (which may be an error text). */
  function Admit(st: State, uid: UserId, now: int, topic: string, generated: string)
    : (res: (State, IdeasReply))
    requires uid in st.users
    ensures res.1 == QuotaNotice || res.1 == Generated(generated)
    ensures res.1 == QuotaNotice <==> CheckAndConsume(st.users[uid]) == QuotaExhausted
    ensures res.1 == QuotaNotice ==> res.0 == st
    ensures res.1.Generated? ==>
              && res.0.users == st.users[uid := CheckAndConsume(st.users[uid]).rec]
              && res.0.conversations == AppendEntry(st.conversations, uid, Entry(now, topic, generated))
  {
    match CheckAndConsume(st.users[uid])
    case QuotaExhausted => (st, QuotaNotice)
    case Allowed(rec) =>
      (State(st.users[uid := rec], AppendEntry(st.conversations, uid, Entry(now, topic, generated))),
       Generated(generated))
  }

  /** `/ideas <args>`: a blank topic is answered with a usage hint before the
      user is even looked up; otherwise the user is fetched and reset and
      `Admit` decides on the stripped topic. The record changes of a refused
      request (creation, reset) are kept, as in the in-memory document. */
  function Ideas(st: State, uid: UserId, now: int, args: string, generated: string)
    : (res: (State, IdeasReply))
    ensures Strip(args) == [] <==> res.1 == UsageHint
    ensures Strip(args) == [] ==> res.0 == st
    ensures Strip(args) != [] ==> res.1 == QuotaNotice || res.1 == Generated(generated)
  {
    var topic := Strip(args);
    if topic == [] then (st, UsageHint)
    else Admit(Touch(st, uid, DayOf(now)), uid, now, topic, generated)
  }

  /** The decision of `/ideas` on a non-blank topic, in terms of the record
      as fetched and reset: a paid user is always served and never charged;
      an unpaid one is served, and charged exactly one use, precisely when
      below the quota, and is otherwise refused with the counter untouched.
      Only that user's record changes. */
  lemma IdeasGate(st: State, uid: UserId, now: int, args: string, generated: string)
    requires Strip(args) != []
    ensures var res := Ideas(st, uid, now, args, generated);
            var pre := Current(st.users, uid, DayOf(now));
            && uid in res.0.users
            && res.0.users == st.users[uid := res.0.users[uid]]
            && (res.1.Generated? <==> pre.isPaid || pre.freeUsedToday < FreeDailyQuota)
            && (res.1 == QuotaNotice ==> res.0.users[uid] == pre)
            && (res.1.Generated? && pre.isPaid ==> res.0.users[uid] == pre)
            && (res.1.Generated? && !pre.isPaid ==>
                  res.0.users[uid] == pre.(freeUsedToday := pre.freeUsedToday + 1))
  {
    var touched := Touch(st, uid, DayOf(now));
    assert touched.users[uid] == Current(st.users, uid, DayOf(now));
  }

  /** Only a served request touches the log, and it appends exactly one
      entry holding the stripped topic and the generator's answer. */
  lemma IdeasLog(st: State, uid: UserId, now: int, args: string, generated: string)
    ensures var res := Ideas(st, uid, now, args, generated);
            && (!res.1.Generated? ==> res.0.conversations == st.conversations)
            && (res.1.Generated? ==>
                  res.0.conversations
                  == AppendEntry(st.conversations, uid, Entry(now, Strip(args), generated)))
  {
  }

  /** `/ideas` keeps the bounds invariant. */
  lemma IdeasKeepsValid(st: State, uid: UserId, now: int, args: string, generated: string)
    requires Valid(st)
    ensures Valid(Ideas(st, uid, now, args, generated).0)
  {
    if Strip(args) != [] {
      var touched := Touch(st, uid, DayOf(now));
      assert Valid(touched);
      assert WithinQuota(touched.users[uid]);
    }
  }

  datatype StatusReport = StatusReport(isPaid: bool, paidUntil: Option<int>, remain: int)

  /** `/status`: touch the user, then report the subscription and the free
      generations left today. */
  function Status(st: State, uid: UserId, now: int): (res: (State, StatusReport))
    ensures res.0 == Touch(st, uid, DayOf(now))
    ensures uid in res.0.users
    ensures res.1.isPaid == res.0.users[uid].isPaid
    ensures res.1.paidUntil == res.0.users[uid].paidUntil
    ensures res.1.remain + res.0.users[uid].freeUsedToday == FreeDailyQuota
    ensures Valid(st) ==> 0 <= res.1.remain <= FreeDailyQuota
  {
    var touched := Touch(st, uid, DayOf(now));
    var rec := touched.users[uid];
    (touched, StatusReport(rec.isPaid, rec.paidUntil, FreeDailyQuota - rec.freeUsedToday))
  }

  /** An unpaid user with uses left sees them counted down by one per
      generated answer. */
  lemma StatusCountsDown(st: State, uid: UserId, now: int, args: string, generated: string)
    requires !AllSpace(args)
    requires var pre := Current(st.users, uid, DayOf(now));
             !pre.isPaid && pre.freeUsedToday < FreeDailyQuota
    ensures var before := Status(st, uid, now).1.remain;
            var after := Status(Ideas(st, uid, now, args, generated).0, uid, now).1.remain;
            after == before - 1
  {
    var today := DayOf(now);
    var pre := Current(st.users, uid, today);
    IdeasGate(st, uid, now, args, generated);
    var st1 := Ideas(st, uid, now, args, generated).0;
    assert st1.users[uid] == pre.(freeUsedToday := pre.freeUsedToday + 1);
    assert Current(st1.users, uid, today) == st1.users[uid];
  }
}
