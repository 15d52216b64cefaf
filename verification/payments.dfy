/** The payment flow: the invoice offered for a chosen currency, the
    pre-checkout answer, and the crediting of a confirmed payment. */
module Payments {
  import opened Optional
  import opened Text
  import opened Store

  /** What `send_invoice` is called with, less the display texts. The amount
      is in the minor units of `currencyCode`. */
  datatype Offer = Offer(
    currency: string,
    amount: int,
    currencyCode: string,
    startParameter: string,
    payload: string)

  /** The fixed price table: USDT and TON are priced in USD, anything else
      falls through to the Telegram Stars tariff. */
  function Tariff(currency: string): (t: (int, string))
    ensures t.1 == "USD" <==> currency == "USDT" || currency == "TON"
    ensures t.1 == "XTR" <==> currency != "USDT" && currency != "TON"
    ensures currency == "USDT" ==> t.0 == 1000
    ensures currency == "TON" ==> t.0 == 1500
    ensures currency != "USDT" && currency != "TON" ==> t.0 == 10000
  {
    if currency == "USDT" then (10 * 100, "USD")
    else if currency == "TON" then (15 * 100, "USD")
    else (100 * 100, "XTR")
  }

  /** The currency-selection callback. The dispatcher routes only callback
      data starting with `buy_` here; `None` stands for data it does not
      route. What the offer holds is stated by `OfferContents`. */
  function ProcessBuy(data: string, stamp: string): (r: Option<Offer>)
    ensures r.Some? <==> HasPrefix(data, "buy_")
  {
    if !HasPrefix(data, "buy_") then None
    else
      var currency := Upper(AfterFirst(data, '_').GetOr(data));
      var (amount, code) := Tariff(currency);
      Some(Offer(currency, amount, code,
                 "sub_" + Lower(currency),
                 "subscription_" + Lower(currency) + "_" + stamp))
  }

  /** The currency is the upper-cased text after `buy_`, priced by the
      tariff, and the payload carries the lower-cased text and the creation
      instant `stamp`. */
  lemma OfferContents(data: string, stamp: string)
    requires HasPrefix(data, "buy_")
    ensures var o := ProcessBuy(data, stamp).value;
            && o.currency == Upper(data[4..])
            && (o.amount, o.currencyCode) == Tariff(o.currency)
            && o.startParameter == "sub_" + Lower(data[4..])
            && o.payload == "subscription_" + Lower(data[4..]) + "_" + stamp
  {
    assert data == "buy_" + data[4..];
    AfterFirstOfPrefixed("buy_", data[4..], '_');
    LowerOfUpper(data[4..]);
  }

  /** The offer depends on the chosen currency only up to letter case. */
  lemma OfferIgnoresCase(x: string, y: string, stamp: string)
    requires Upper(x) == Upper(y)
    ensures ProcessBuy("buy_" + x, stamp) == ProcessBuy("buy_" + y, stamp)
  {
    assert ("buy_" + x)[4..] == x;
    assert ("buy_" + y)[4..] == y;
    OfferContents("buy_" + x, stamp);
    OfferContents("buy_" + y, stamp);
  }

  /** A lower-case currency name after `buy_` yields its upper-cased name,
      its tariff, and a payload spelled with the name as given. */
  lemma LowerCaseOffer(w: string, stamp: string)
    requires Lower(w) == w
    ensures ProcessBuy("buy_" + w, stamp)
            == Some(Offer(Upper(w), Tariff(Upper(w)).0, Tariff(Upper(w)).1,
                          "sub_" + w, "subscription_" + w + "_" + stamp))
  {
    assert ("buy_" + w)[4..] == w;
    OfferContents("buy_" + w, stamp);
  }

  /** The `buy_usdt` button: 10 USD, in cents. */
  lemma UsdtOffer(stamp: string)
    ensures ProcessBuy("buy_usdt", stamp)
            == Some(Offer("USDT", 1000, "USD", "sub_" + "usdt", "subscription_" + "usdt" + "_" + stamp))
  {
    assert Lower("usdt") == "usdt";
    assert Upper("usdt") == "USDT";
    assert "buy_usdt" == "buy_" + "usdt";
    LowerCaseOffer("usdt", stamp);
  }

  /** The `buy_ton` button: 15 USD, in cents. */
  lemma TonOffer(stamp: string)
    ensures ProcessBuy("buy_ton", stamp)
            == Some(Offer("TON", 1500, "USD", "sub_" + "ton", "subscription_" + "ton" + "_" + stamp))
  {
    assert Lower("ton") == "ton";
    assert Upper("ton") == "TON";
    assert "buy_ton" == "buy_" + "ton";
    LowerCaseOffer("ton", stamp);
  }

  /** The `buy_stars` button: the Telegram Stars tariff of 10000 XTR. */
  lemma StarsOffer(stamp: string)
    ensures ProcessBuy("buy_stars", stamp)
            == Some(Offer("STARS", 10000, "XTR", "sub_" + "stars", "subscription_" + "stars" + "_" + stamp))
  {
    assert Lower("stars") == "stars";
    assert Upper("stars") == "STARS";
    assert Tariff("STARS") == (10000, "XTR");
    assert "buy_stars" == "buy_" + "stars";
    LowerCaseOffer("stars", stamp);
  }

  /** The pre-checkout query is always accepted. */
  function PreCheckout(queryId: string): (ok: bool)
    ensures ok
  {
    true
  }

  /** The instant a subscription bought at `now` runs out. */
  function SubscriptionEnd(now: int): (t: int)
    ensures DayOf(t) == DayOf(now) + SubscriptionDays
  {
    now + SubscriptionDays * SecondsPerDay
  }

  /** `successful_payment`: the paying user, created if unknown, becomes
      paid until 30 days from `now`, whatever the currency or payload and
      whatever `paidUntil` said before. Counters, other users and the logs
      are left alone. */
  function SuccessfulPayment(st: State, uid: UserId, now: int): (r: State)
    ensures r.users.Keys == st.users.Keys + {uid}
    ensures r.users[uid].isPaid
    ensures r.users[uid].paidUntil == Some(SubscriptionEnd(now))
    ensures uid in st.users ==>
              && r.users[uid].freeUsedToday == st.users[uid].freeUsedToday
              && r.users[uid].lastReset == st.users[uid].lastReset
    ensures uid !in st.users ==>
              r.users[uid].freeUsedToday == 0 && r.users[uid].lastReset == DayOf(now)
    ensures forall u :: u in st.users && u != uid ==> r.users[u] == st.users[u]
    ensures r.conversations == st.conversations
    ensures Valid(st) ==> Valid(r)
  {
    var (users, rec) := GetUser(st.users, uid, DayOf(now));
    var rec' := rec.(isPaid := true, paidUntil := Some(SubscriptionEnd(now)));
    State(users[uid := rec'], st.conversations)
  }

  /** A duplicated confirmation leaves the user paid; the later one sets the
      expiry afresh rather than adding another 30 days. */
  lemma DuplicateConfirmation(st: State, uid: UserId, t1: int, t2: int)
    ensures var r := SuccessfulPayment(SuccessfulPayment(st, uid, t1), uid, t2);
            r.users[uid].isPaid && r.users[uid].paidUntil == Some(SubscriptionEnd(t2))
  {
  }

  /** Delivering the same confirmation twice at one instant is idempotent. */
  lemma ConfirmationIdempotent(st: State, uid: UserId, now: int)
    ensures SuccessfulPayment(SuccessfulPayment(st, uid, now), uid, now)
            == SuccessfulPayment(st, uid, now)
  {
    var once := SuccessfulPayment(st, uid, now);
    var twice := SuccessfulPayment(once, uid, now);
    assert twice.users == once.users;
  }
}
