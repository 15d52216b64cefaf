/** The bot as a whole: every handler as one atomic step over the state,
    and runs of such steps. */
module Bot {
  import opened Optional
  import opened Text
  import opened Store
  import UsageGate
  import Payments

  datatype Command =
    | StartCmd                                   // `/start` and `/help`
    | StatusCmd                                  // `/status`
    | IdeasCmd(args: string, generated: string)  // `/ideas <args>`, with the generator's answer
    | BuyCmd                                     // `/buy`
    | BuyCallback(data: string, stamp: string)   // a currency button, at instant `stamp`
    | PreCheckoutQuery(queryId: string)
    | PaymentConfirmed                           // the successful-payment message
    | OtherMessage                               // anything else: the fallback handler

  /** A message or callback from user `uid` arriving at instant `now`. */
  datatype Event = Event(uid: UserId, now: int, cmd: Command)

  datatype Reply =
    | Welcome
    | StatusShown(report: UsageGate.StatusReport)
    | IdeasAnswer(answer: UsageGate.IdeasReply)
    | CurrencyMenu
    | Invoice(offer: Option<Payments.Offer>)
    | PreCheckoutAnswer(ok: bool)
    | PaymentThanks
    | NotUnderstood

  /** True when `r` answers a request with freshly generated ideas. */
  predicate IsGeneration(r: Reply)
  {
    r.IdeasAnswer? && r.answer.Generated?
  }

  /** No user disappears and no paid user becomes unpaid. */
  predicate Persists(st: State, st': State)
  {
    && st.users.Keys <= st'.users.Keys
    && forall u :: u in st.users && st.users[u].isPaid ==> u in st'.users && st'.users[u].isPaid
  }

  /** One handler invocation. Each command is answered by its own handler;
      `/buy`, a currency button, the pre-checkout query and an unrecognised
      message leave the state as it is, and `/start` only touches the user.
      What every handler keeps is stated by `StepFrame`. */
  function Step(st: State, ev: Event): (res: (State, Reply))
    ensures ev.cmd.StartCmd? ==> res.0 == Touch(st, ev.uid, DayOf(ev.now)) && res.1 == Welcome
    ensures ev.cmd.StatusCmd? <==> res.1.StatusShown?
    ensures ev.cmd.IdeasCmd? <==> res.1.IdeasAnswer?
    ensures ev.cmd.BuyCmd? ==> res.0 == st && res.1 == CurrencyMenu
    ensures ev.cmd.BuyCallback? ==> res.0 == st && res.1.Invoice?
    ensures ev.cmd.PreCheckoutQuery? ==> res.0 == st && res.1 == PreCheckoutAnswer(true)
    ensures ev.cmd.PaymentConfirmed? <==> res.1 == PaymentThanks
    ensures ev.cmd.OtherMessage? ==> res.0 == st && res.1 == NotUnderstood
  {
    var today := DayOf(ev.now);
    match ev.cmd
    case StartCmd => (Touch(st, ev.uid, today), Welcome)
    case StatusCmd =>
      var (st', report) := UsageGate.Status(st, ev.uid, ev.now);
      (st', StatusShown(report))
    case IdeasCmd(args, generated) =>
      var (st', answer) := UsageGate.Ideas(st, ev.uid, ev.now, args, generated);
      (st', IdeasAnswer(answer))
    case BuyCmd => (st, CurrencyMenu)
    case BuyCallback(data, stamp) => (st, Invoice(Payments.ProcessBuy(data, stamp)))
    case PreCheckoutQuery(id) => (st, PreCheckoutAnswer(Payments.PreCheckout(id)))
    case PaymentConfirmed => (Payments.SuccessfulPayment(st, ev.uid, ev.now), PaymentThanks)
    case OtherMessage => (st, NotUnderstood)
  }

  /** What a handler invocation by user `uid` turning `st` into `st'` with
      reply `r` must keep: the bounds invariant, every user and every
      subscription; other users' records and logs are left alone, and the
      log of `uid` grows by exactly one entry for a generated answer and
      not at all otherwise. */
  ghost predicate Framed(st: State, uid: UserId, st': State, r: Reply)
  {
    && (Valid(st) ==> Valid(st'))
    && Persists(st, st')
    && (forall u :: u != uid ==>
          && (u in st'.users <==> u in st.users)
          && (u in st.users ==> st'.users[u] == st.users[u])
          && Log(st'.conversations, u) == Log(st.conversations, u))
    && (!IsGeneration(r) ==> st'.conversations == st.conversations)
    && (IsGeneration(r) ==>
          && |Log(st'.conversations, uid)| == |Log(st.conversations, uid)| + 1
          && Log(st'.conversations, uid)[..|Log(st.conversations, uid)|] == Log(st.conversations, uid))
  }

  lemma IdeasFramed(st: State, uid: UserId, now: int, args: string, generated: string)
    ensures var res := UsageGate.Ideas(st, uid, now, args, generated);
            Framed(st, uid, res.0, IdeasAnswer(res.1))
  {
    var res := UsageGate.Ideas(st, uid, now, args, generated);
    UsageGate.IdeasLog(st, uid, now, args, generated);
    if Valid(st) {
      UsageGate.IdeasKeepsValid(st, uid, now, args, generated);
    }
    if Strip(args) != [] {
      UsageGate.IdeasGate(st, uid, now, args, generated);
    }
  }

  lemma TouchFramed(st: State, uid: UserId, today: int, r: Reply)
    requires !IsGeneration(r)
    ensures Framed(st, uid, Touch(st, uid, today), r)
  {
  }

  lemma PaymentFramed(st: State, uid: UserId, now: int)
    ensures Framed(st, uid, Payments.SuccessfulPayment(st, uid, now), PaymentThanks)
  {
  }

  /** Every handler invocation is framed. */
  lemma StepFrame(st: State, ev: Event)
    ensures Framed(st, ev.uid, Step(st, ev).0, Step(st, ev).1)
  {
    match ev.cmd
    case StartCmd =>
      TouchFramed(st, ev.uid, DayOf(ev.now), Welcome);
    case StatusCmd =>
      var res := UsageGate.Status(st, ev.uid, ev.now);
      TouchFramed(st, ev.uid, DayOf(ev.now), StatusShown(res.1));
    case IdeasCmd(args, generated) =>
      IdeasFramed(st, ev.uid, ev.now, args, generated);
    case PaymentConfirmed =>
      PaymentFramed(st, ev.uid, ev.now);
    case _ =>
  }

  /** The handlers applied one after another, with their replies. */
  function Run(st: State, evs: seq<Event>): (res: (State, seq<Reply>))
    ensures |res.1| == |evs|
    decreases |evs|
  {
    if evs == [] then (st, [])
    else
      var first := Step(st, evs[0]);
      var rest := Run(first.0, evs[1..]);
      (rest.0, [first.1] + rest.1)
  }

  /** The bounds invariant holds after any run that starts in it; in
      particular every status report shows between 0 and the quota. */
  lemma {:induction false} RunPreservesValid(st: State, evs: seq<Event>)
    requires Valid(st)
    ensures Valid(Run(st, evs).0)
    decreases |evs|
  {
    if evs != [] {
      StepFrame(st, evs[0]);
      RunPreservesValid(Step(st, evs[0]).0, evs[1..]);
    }
  }

  /** No run deletes a user or takes a subscription away. */
  lemma {:induction false} RunPersists(st: State, evs: seq<Event>)
    ensures Persists(st, Run(st, evs).0)
    decreases |evs|
  {
    if evs != [] {
      var s1 := Step(st, evs[0]).0;
      StepFrame(st, evs[0]);
      RunPersists(s1, evs[1..]);
    }
  }

  /** Number of generated answers user `u` received in a run. */
  function Generations(evs: seq<Event>, rs: seq<Reply>, u: UserId): (n: nat)
    requires |evs| == |rs|
    ensures n <= |evs|
  {
    if evs == [] then 0
    else (if evs[0].uid == u && IsGeneration(rs[0]) then 1 else 0)
         + Generations(evs[1..], rs[1..], u)
  }

  /** The log of each user keeps its earlier entries and grows by exactly
      one entry per generated answer that user received. */
  lemma {:induction false} RunLog(st: State, evs: seq<Event>, u: UserId)
    ensures var res := Run(st, evs);
            && |Log(res.0.conversations, u)| == |Log(st.conversations, u)| + Generations(evs, res.1, u)
            && Log(res.0.conversations, u)[..|Log(st.conversations, u)|] == Log(st.conversations, u)
    decreases |evs|
  {
    if evs != [] {
      var first := Step(st, evs[0]);
      var rest := Run(first.0, evs[1..]);
      StepLog(st, evs[0], u);
      RunLog(first.0, evs[1..], u);
      var rs := Run(st, evs).1;
      assert rs == [first.1] + rest.1;
      assert rs[0] == first.1 && rs[1..] == rest.1;
      var a, b, c := Log(st.conversations, u), Log(first.0.conversations, u), Log(rest.0.conversations, u);
      assert c[..|a|] == c[..|b|][..|a|];
    }
  }

  /** One step grows the log of `u` by one entry exactly when it generates
      an answer for `u`, keeping the earlier entries. */
  lemma StepLog(st: State, ev: Event, u: UserId)
    ensures var (st', r) := Step(st, ev);
            && |Log(st'.conversations, u)|
               == |Log(st.conversations, u)| + (if ev.uid == u && IsGeneration(r) then 1 else 0)
            && Log(st'.conversations, u)[..|Log(st.conversations, u)|] == Log(st.conversations, u)
  {
    StepFrame(st, ev);
    var st' := Step(st, ev).0;
    if ev.uid != u || !IsGeneration(Step(st, ev).1) {
      assert Log(st'.conversations, u) == Log(st.conversations, u);
    }
  }

  /** A user whose record is absent or unpaid. */
  predicate Unpaid(st: State, u: UserId)
  {
    u !in st.users || !st.users[u].isPaid
  }

  /** Free uses charged to `u` as seen on day `d`, after the lazy reset. */
  function UsedOn(st: State, u: UserId, d: int): (n: int)
    ensures Valid(st) ==> 0 <= n <= FreeDailyQuota
  {
    Current(st.users, u, d).freeUsedToday
  }

  /** Events of `u` that all fall on day `d` and include no payment. */
  predicate FreeDay(evs: seq<Event>, u: UserId, d: int)
  {
    forall i :: 0 <= i < |evs| && evs[i].uid == u ==>
      DayOf(evs[i].now) == d && !evs[i].cmd.PaymentConfirmed?
  }

  lemma StepFreeDay(st: State, ev: Event, u: UserId, d: int)
    requires Unpaid(st, u)
    requires ev.uid == u ==> DayOf(ev.now) == d && !ev.cmd.PaymentConfirmed?
    ensures var (st', r) := Step(st, ev);
            && (Valid(st) ==> Valid(st'))
            && Unpaid(st', u)
            && UsedOn(st', u, d)
               == UsedOn(st, u, d) + (if ev.uid == u && IsGeneration(r) then 1 else 0)
  {
    StepFrame(st, ev);
    if ev.uid == u {
      var pre := Current(st.users, u, d);
      ResetIdempotent(pre, d);
      match ev.cmd
      case StartCmd =>
      case StatusCmd =>
      case IdeasCmd(args, generated) =>
        StepIdeas(st, ev);
        if Strip(args) != [] {
          UsageGate.IdeasGate(st, u, ev.now, args, generated);
          var rec := UsageGate.Ideas(st, u, ev.now, args, generated).0.users[u];
          ResetIdempotent(rec, d);
        }
      case _ =>
    }
  }

  /** On one day, with no payment, an unpaid user's charged counter rises by
      exactly one per generated answer; so, whatever happens, an unpaid
      user gets at most `FreeDailyQuota` answers per day. */
  lemma {:induction false} RunFreeDay(st: State, evs: seq<Event>, u: UserId, d: int)
    requires Valid(st) && Unpaid(st, u) && FreeDay(evs, u, d)
    ensures var (st', rs) := Run(st, evs);
            && Unpaid(st', u)
            && UsedOn(st', u, d) == UsedOn(st, u, d) + Generations(evs, rs, u)
            && Generations(evs, rs, u) <= FreeDailyQuota - UsedOn(st, u, d)
    decreases |evs|
  {
    if evs != [] {
      var (s1, r1) := Step(st, evs[0]);
      StepFreeDay(st, evs[0], u, d);
      assert FreeDay(evs[1..], u, d) by {
        forall i | 0 <= i < |evs[1..]| && evs[1..][i].uid == u
          ensures DayOf(evs[1..][i].now) == d && !evs[1..][i].cmd.PaymentConfirmed?
        {
          assert evs[1..][i] == evs[i + 1];
        }
      }
      RunFreeDay(s1, evs[1..], u, d);
      var rest := Run(s1, evs[1..]);
      var rs := Run(st, evs).1;
      assert Run(st, evs).0 == rest.0;
      assert rs == [r1] + rest.1;
      assert rs[0] == r1 && rs[1..] == rest.1;
    }
  }

  /** A request for ideas on a non-blank topic. */
  predicate AsksIdeas(ev: Event, u: UserId)
  {
    ev.uid == u && ev.cmd.IdeasCmd? && !AllSpace(ev.cmd.args)
  }

  lemma StepIdeas(st: State, ev: Event)
    requires ev.cmd.IdeasCmd?
    ensures var r := UsageGate.Ideas(st, ev.uid, ev.now, ev.cmd.args, ev.cmd.generated);
            Step(st, ev) == (r.0, IdeasAnswer(r.1))
  {
  }

  lemma StepPaidServed(st: State, ev: Event, u: UserId)
    requires u in st.users && st.users[u].isPaid
    ensures AsksIdeas(ev, u) ==> IsGeneration(Step(st, ev).1)
  {
    if AsksIdeas(ev, u) {
      StepIdeas(st, ev);
    }
  }

  /** A paid user's non-blank `/ideas` requests are all answered, in any
      run and whatever the counter or the expiry instant say. */
  lemma {:induction false} RunPaidAlwaysServed(st: State, evs: seq<Event>, u: UserId)
    requires u in st.users && st.users[u].isPaid
    ensures forall i :: 0 <= i < |evs| && AsksIdeas(evs[i], u) ==> IsGeneration(Run(st, evs).1[i])
    decreases |evs|
  {
    if evs != [] {
      var first := Step(st, evs[0]);
      StepPaidServed(st, evs[0], u);
      StepFrame(st, evs[0]);
      RunPaidAlwaysServed(first.0, evs[1..], u);
      var rs := Run(st, evs).1;
      var rest := Run(first.0, evs[1..]).1;
      assert rs == [first.1] + rest;
      forall i | 0 <= i < |evs| && AsksIdeas(evs[i], u)
        ensures IsGeneration(rs[i])
      {
        if i > 0 {
          assert evs[i] == evs[1..][i - 1];
          assert rs[i] == rest[i - 1];
        }
      }
    }
  }

  /** An unpaid user below the quota on day `DayOf(t)` is served and charged. */
  lemma ServedOnce(st: State, u: UserId, t: int, topic: string, gen: string, k: int)
    requires !AllSpace(topic) && 0 <= k < FreeDailyQuota
    requires Current(st.users, u, DayOf(t)) == UserRecord(k, DayOf(t), false, None)
    ensures var (st', r) := Step(st, Event(u, t, IdeasCmd(topic, gen)));
            && r == IdeasAnswer(UsageGate.Generated(gen))
            && u in st'.users
            && st'.users[u] == UserRecord(k + 1, DayOf(t), false, None)
            && |Log(st'.conversations, u)| == |Log(st.conversations, u)| + 1
  {
    StepIdeas(st, Event(u, t, IdeasCmd(topic, gen)));
  }

  /** A new user asks three times on one day and is served, is refused the
      fourth time, and is served again on the next day with the counter
      restarted from zero. */
  lemma DailyScenario(st: State, u: UserId, topic: string, gen: string,
                      t1: int, t2: int, t3: int, t4: int, t5: int)
    requires u !in st.users && !AllSpace(topic)
    requires DayOf(t2) == DayOf(t1) && DayOf(t3) == DayOf(t1) && DayOf(t4) == DayOf(t1)
    requires DayOf(t5) > DayOf(t1)
    ensures var s1 := Step(st, Event(u, t1, IdeasCmd(topic, gen)));
            var s2 := Step(s1.0, Event(u, t2, IdeasCmd(topic, gen)));
            var s3 := Step(s2.0, Event(u, t3, IdeasCmd(topic, gen)));
            var s4 := Step(s3.0, Event(u, t4, IdeasCmd(topic, gen)));
            var s5 := Step(s4.0, Event(u, t5, IdeasCmd(topic, gen)));
            && s1.1 == IdeasAnswer(UsageGate.Generated(gen))
            && s2.1 == IdeasAnswer(UsageGate.Generated(gen))
            && s3.1 == IdeasAnswer(UsageGate.Generated(gen))
            && s4.1 == IdeasAnswer(UsageGate.QuotaNotice)
            && s5.1 == IdeasAnswer(UsageGate.Generated(gen))
            && u in s5.0.users
            && s5.0.users[u] == UserRecord(1, DayOf(t5), false, None)
  {
    ServedOnce(st, u, t1, topic, gen, 0);
    ThreeServedThenRefused(Step(st, Event(u, t1, IdeasCmd(topic, gen))).0,
                           u, topic, gen, t1, t2, t3, t4, t5);
  }

  lemma ThreeServedThenRefused(s1: State, u: UserId, topic: string, gen: string,
                               t1: int, t2: int, t3: int, t4: int, t5: int)
    requires !AllSpace(topic)
    requires u in s1.users && s1.users[u] == UserRecord(1, DayOf(t1), false, None)
    requires DayOf(t2) == DayOf(t1) && DayOf(t3) == DayOf(t1) && DayOf(t4) == DayOf(t1)
    requires DayOf(t5) > DayOf(t1)
    ensures var s2 := Step(s1, Event(u, t2, IdeasCmd(topic, gen))).0;
            var s3 := Step(s2, Event(u, t3, IdeasCmd(topic, gen))).0;
            var s4 := Step(s3, Event(u, t4, IdeasCmd(topic, gen))).0;
            && Step(s1, Event(u, t2, IdeasCmd(topic, gen))).1 == IdeasAnswer(UsageGate.Generated(gen))
            && Step(s2, Event(u, t3, IdeasCmd(topic, gen))).1 == IdeasAnswer(UsageGate.Generated(gen))
            && Step(s3, Event(u, t4, IdeasCmd(topic, gen))).1 == IdeasAnswer(UsageGate.QuotaNotice)
            && Step(s4, Event(u, t5, IdeasCmd(topic, gen))).1 == IdeasAnswer(UsageGate.Generated(gen))
            && u in Step(s4, Event(u, t5, IdeasCmd(topic, gen))).0.users
            && Step(s4, Event(u, t5, IdeasCmd(topic, gen))).0.users[u]
               == UserRecord(1, DayOf(t5), false, None)
  {
    var d := DayOf(t1);
    ServedOnce(s1, u, t2, topic, gen, 1);
    var s2 := Step(s1, Event(u, t2, IdeasCmd(topic, gen))).0;
    ServedOnce(s2, u, t3, topic, gen, 2);
    var s3 := Step(s2, Event(u, t3, IdeasCmd(topic, gen))).0;
    RefusedAtQuota(s3, u, t4, topic, gen);
    var s4 := Step(s3, Event(u, t4, IdeasCmd(topic, gen))).0;
    ServedOnce(s4, u, t5, topic, gen, 0);
  }

  /** An unpaid user at the quota on day `DayOf(t)` is refused and not charged. */
  lemma RefusedAtQuota(st: State, u: UserId, t: int, topic: string, gen: string)
    requires !AllSpace(topic)
    requires u in st.users && st.users[u] == UserRecord(FreeDailyQuota, DayOf(t), false, None)
    ensures var res := Step(st, Event(u, t, IdeasCmd(topic, gen)));
            && res.1 == IdeasAnswer(UsageGate.QuotaNotice)
            && u in res.0.users
            && res.0.users[u] == st.users[u]
  {
    StepIdeas(st, Event(u, t, IdeasCmd(topic, gen)));
  }

  /** A user picks a currency button, passes pre-checkout and pays: an
      invoice is issued, and a later status shows a subscription until 30
      days on, whichever currency was chosen. */
  lemma PurchaseScenario(st: State, u: UserId, data: string, stamp: string, now: int, later: int)
    requires HasPrefix(data, "buy_")
    ensures var r1 := Step(st, Event(u, now, BuyCallback(data, stamp)));
            var r2 := Step(r1.0, Event(u, now, PreCheckoutQuery("q")));
            var r3 := Step(r2.0, Event(u, now, PaymentConfirmed));
            var r4 := Step(r3.0, Event(u, later, StatusCmd));
            && r1.1 == Invoice(Payments.ProcessBuy(data, stamp))
            && r1.1.offer.Some?
            && r2.1 == PreCheckoutAnswer(true)
            && r4.1.StatusShown?
            && r4.1.report.isPaid
            && r4.1.report.paidUntil == Some(now + 30 * 86400)
  {
    var r3 := Step(st, Event(u, now, PaymentConfirmed));
    PaidStatus(r3.0, u, now, later);
  }

  /** After a confirmed payment at `now`, `/status` shows the subscription. */
  lemma PaidStatus(st: State, u: UserId, now: int, later: int)
    requires u in st.users && st.users[u].isPaid
    requires st.users[u].paidUntil == Some(now + 30 * 86400)
    ensures var r := Step(st, Event(u, later, StatusCmd)).1;
            r.StatusShown? && r.report.isPaid && r.report.paidUntil == Some(now + 30 * 86400)
  {
  }
}
