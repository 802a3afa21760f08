/**
 * The payment webhook (`POST /api/webhook`): reject requests without a valid signature;
 * on `checkout.session.completed` add the purchased credits to the buyer's balance and
 * record a completed transaction; acknowledge every other event without change.
 * Signature verification and the outcome of each table call are inputs.
 */
module WebhookRoute {
  import opened Wrappers
  import opened Text
  import opened Numbers
  import opened Store

  /** `session.metadata`, as written by the checkout route: `{userId, credits}`. */
  datatype Metadata = Metadata(userId: Option<string>, credits: Option<string>)

  datatype Session = Session(id: string, metadata: Option<Metadata>)

  datatype Event = Event(eventType: string, session: Session)

  /**
   * The request as the handler sees it: the `stripe-signature` header, and what
   * `constructEvent` makes of body and signature (None when it throws).
   */
  datatype WebhookRequest = WebhookRequest(signature: Option<string>, verified: Option<Event>)

  /** Whether each `users`/`transactions` call reports an error. */
  datatype WebhookEnv = WebhookEnv(fetchFails: bool, updateFails: bool, insertFails: bool)

  datatype WebhookResponse = Rejected(status: int, error: string) | Received

  datatype WebhookOutcome = WebhookOutcome(response: WebhookResponse, db: Db)

  const CheckoutCompleted: string := "checkout.session.completed"

  /** `session.metadata?.userId` */
  function BuyerOf(s: Session): Option<string>
  {
    if s.metadata.Some? then s.metadata.value.userId else None
  }

  /** `parseInt(session.metadata?.credits || '0')` */
  function PurchasedCredits(s: Session): (n: Num)
    // Missing metadata or a missing or empty `credits` entry reads as zero credits, never as NaN.
    ensures s.metadata.None? || !Truthy(s.metadata.value.credits) ==> n == Int(0)
    ensures s.metadata.Some? && Truthy(s.metadata.value.credits) ==> n == ParseInt(s.metadata.value.credits.value)
  {
    ParseIntRoundTrip(0);
    ParseInt(OrElse(if s.metadata.Some? then s.metadata.value.credits else None, "0"))
  }

  /**
   * The conditions under which a verified event changes the balance: a completed checkout
   * whose metadata names a buyer and a non-zero number of credits, for a buyer whose row
   * can be read and written.
   */
  predicate Credits(db: Db, e: Event, env: WebhookEnv)
  {
    && e.eventType == CheckoutCompleted
    && Truthy(BuyerOf(e.session))
    && PurchasedCredits(e.session).Truthy()
    && BuyerOf(e.session).value in db.users
    && !env.fetchFails
    && !env.updateFails
  }

  function HandleWebhook(db: Db, req: WebhookRequest, env: WebhookEnv): (o: WebhookOutcome)
    // Signature gate: a missing or empty header, or a failed verification, is 400 with no change.
    ensures o.response.Rejected? <==> !Truthy(req.signature) || req.verified.None?
    ensures o.response.Rejected? ==> o.response.status == 400 && o.db == db
    // Everything past the gate is acknowledged; only a crediting event changes the tables.
    ensures o.db != db <==> o.response.Received? && Credits(db, req.verified.value, env)
    ensures o.db.documents == db.documents && o.db.users.Keys == db.users.Keys
    ensures o.db != db ==>
      var e := req.verified.value;
      var u := BuyerOf(e.session).value;
      var n := PurchasedCredits(e.session).value;
      && Balance(o.db, u) == Balance(db, u) + n
      && (forall v :: v != u ==> Balance(o.db, v) == Balance(db, v))
      && o.db.transactions == db.transactions +
           (if env.insertFails then [] else [Transaction(u, e.session.id, n, "completed")])
  {
    if !Truthy(req.signature) then WebhookOutcome(Rejected(400, "No signature provided"), db)
    else if req.verified.None? then WebhookOutcome(Rejected(400, "Invalid signature"), db)
    else
      var e := req.verified.value;
      if e.eventType != CheckoutCompleted then WebhookOutcome(Received, db)
      else
        var userId := BuyerOf(e.session);
        var credits := PurchasedCredits(e.session);
        if !Truthy(userId) || !credits.Truthy() then WebhookOutcome(Received, db)
        // `.single()` reports an error when no row matches.
        else if env.fetchFails || userId.value !in db.users then WebhookOutcome(Received, db)
        else
          var u := userId.value;
          var newCredits := db.users[u].credits.GetOr(0) + credits.value;
          if env.updateFails then WebhookOutcome(Received, db)
          else
            var updated := SetCredits(db, u, newCredits);
            var recorded :=
              if env.insertFails then updated
              else updated.(transactions := updated.transactions + [Transaction(u, e.session.id, credits.value, "completed")]);
            WebhookOutcome(Received, recorded)
  }

  /** The metadata the checkout route attaches to a session: `{userId: user.id, credits: credits.toString()}`. */
  function CheckoutMetadata(u: UserId, credits: int): (m: Metadata)
    // The buyer is named, and the written credits parse back to the number bought.
    ensures m.userId == Some(u)
    ensures m.credits.Some? && ParseInt(m.credits.value) == Int(credits)
  {
    ParseIntRoundTrip(credits);
    Metadata(Some(u), Some(IntToString(credits)))
  }

  /**
   * A completed purchase of `n` credits, signed and with the metadata checkout wrote, raises
   * the buyer's balance by exactly `n` and records one completed transaction of `n` credits.
   */
  lemma PurchaseRoundTrip(db: Db, u: UserId, n: int, sessionId: string, signature: string)
    requires u != "" && u in db.users && n != 0 && signature != ""
    ensures var e := Event(CheckoutCompleted, Session(sessionId, Some(CheckoutMetadata(u, n))));
      var o := HandleWebhook(db, WebhookRequest(Some(signature), Some(e)), WebhookEnv(false, false, false));
      && o.response == Received
      && Balance(o.db, u) == Balance(db, u) + n
      && o.db.transactions == db.transactions + [Transaction(u, sessionId, n, "completed")]
  {
    var s := Session(sessionId, Some(CheckoutMetadata(u, n)));
    ParseIntRoundTrip(n);
    assert OrElse(Some(IntToString(n)), "0") == IntToString(n);
    assert PurchasedCredits(s) == Int(n);
  }

  /** A completed event whose credits metadata does not read as a non-zero number is acknowledged and changes nothing. */
  lemma UnreadableCreditsIgnored(db: Db, req: WebhookRequest, env: WebhookEnv)
    requires Truthy(req.signature) && req.verified.Some?
    requires !PurchasedCredits(req.verified.value.session).Truthy()
    ensures HandleWebhook(db, req, env) == WebhookOutcome(Received, db)
  {
  }

  /** The webhook keeps balances non-negative as long as the purchased amount is not negative. */
  lemma PreservesNonNegative(db: Db, req: WebhookRequest, env: WebhookEnv)
    requires NonNegative(db)
    requires req.verified.Some? ==> PurchasedCredits(req.verified.value.session).Int? ==>
      PurchasedCredits(req.verified.value.session).value >= 0
    ensures NonNegative(HandleWebhook(db, req, env).db)
  {
    var o := HandleWebhook(db, req, env);
    if o.db != db {
      var u := BuyerOf(req.verified.value.session).value;
      forall v | v in o.db.users ensures o.db.users[v].credits.GetOr(0) >= 0
      {
        if v != u {
          assert Balance(o.db, v) == Balance(db, v);
        }
      }
    }
  }

  /**
   * Nothing in the handler rejects a negative amount: checkout metadata with a negative
   * `credits` larger than the buyer's balance leaves the balance below zero.
   */
  lemma NegativePurchaseBreaksInvariant(db: Db, u: UserId, n: int, sessionId: string)
    requires u != "" && u in db.users && n < 0 && Balance(db, u) + n < 0
    ensures var e := Event(CheckoutCompleted, Session(sessionId, Some(CheckoutMetadata(u, n))));
      var o := HandleWebhook(db, WebhookRequest(Some("sig"), Some(e)), WebhookEnv(false, false, false));
      !NonNegative(o.db)
  {
    PurchaseRoundTrip(db, u, n, sessionId, "sig");
  }
}
