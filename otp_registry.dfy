/**
 * The process-wide OTP table of index.js and the two handlers that use it.
 *
 * `otpStore` is a `Map` from a phone number to `{otp, expires}`.  `/send-otp`
 * writes a fresh record that expires five minutes later; `/verify-otp` reads the
 * record and either leaves it, or deletes it when it has expired or matched.
 * `Date.now()` is the parameter `now` (milliseconds), the provider's answer to
 * the message send is the parameter `delivery`.
 *
 * The pure functions `Put` and `VerifyStep` say what one request does to the
 * table; the class `Registry` holds the table and its methods are proved to
 * act as those functions say.
 */
module OtpRegistry {
  import opened Wrappers
  import opened OtpCode

  /** `5 * 60 * 1000`: a record lives five minutes after it is written. */
  const TtlMs: int := 5 * 60 * 1000

  /** The value stored under a phone number. */
  datatype Record = Record(otp: string, expires: int)

  type Store = map<string, Record>

  /** The four ways `/verify-otp` can end. */
  datatype Outcome = NoOtpSent | Expired | Incorrect | Accepted

  /** The JSON body `/verify-otp` answers with: `{valid, reason?}`. */
  datatype VerifyReply = VerifyReply(valid: bool, reason: Option<string>)

  /** The body for each outcome: only an accepted code is valid, and only a refusal carries a reason. */
  function Reply(o: Outcome): (r: VerifyReply)
    ensures r.valid <==> o == Accepted
    ensures r.reason.None? <==> r.valid
  {
    match o
    case NoOtpSent => VerifyReply(false, Some("No OTP sent"))
    case Expired => VerifyReply(false, Some("OTP expired"))
    case Incorrect => VerifyReply(false, Some("Incorrect OTP"))
    case Accepted => VerifyReply(true, None)
  }

  /** Different outcomes give different bodies, so a client can tell them apart. */
  lemma ReplyInjective(o1: Outcome, o2: Outcome)
    ensures Reply(o1) == Reply(o2) <==> o1 == o2
  {
  }

  /**
   * The store write of `/send-otp`: `phone` now maps to the code and an expiry
   * `TtlMs` after `now`; any earlier record for `phone` is replaced and every
   * other entry is kept.
   */
  function Put(s: Store, phone: string, code: string, now: int): (r: Store)
    ensures phone in r && r[phone] == Record(code, now + TtlMs)
    ensures r.Keys == s.Keys + {phone}
    ensures forall p :: p in s && p != phone ==> r[p] == s[p]
  {
    s[phone := Record(code, now + TtlMs)]
  }

  /** What one verification answers and what it leaves in the table. */
  datatype Step = Step(outcome: Outcome, store: Store)

  /**
   * `/verify-otp` on the table `s`.  A code is accepted exactly when a record
   * exists, has not expired (`now <= expires`) and holds that code.  The table
   * afterwards is `s` minus `phone` when the record expired or matched, and `s`
   * itself otherwise: verification never adds an entry, never rewrites one and
   * never touches another phone.
   */
  function VerifyStep(s: Store, phone: string, otp: string, now: int): (r: Step)
    ensures r.outcome == NoOtpSent <==> phone !in s
    ensures r.outcome == Expired <==> phone in s && now > s[phone].expires
    ensures r.outcome == Accepted <==> phone in s && now <= s[phone].expires && s[phone].otp == otp
    ensures r.store == (if r.outcome == Expired || r.outcome == Accepted then s - {phone} else s)
  {
    if phone !in s then Step(NoOtpSent, s)
    else if now > s[phone].expires then Step(Expired, s - {phone})
    else if s[phone].otp == otp then Step(Accepted, s - {phone})
    else Step(Incorrect, s)
  }

  /** Verifying a phone with no record answers "No OTP sent" and changes nothing. */
  lemma VerifyAbsent(s: Store, phone: string, otp: string, now: int)
    requires phone !in s
    ensures VerifyStep(s, phone, otp, now) == Step(NoOtpSent, s)
    ensures Reply(VerifyStep(s, phone, otp, now).outcome) == VerifyReply(false, Some("No OTP sent"))
  {
  }

  /**
   * Expiry is tested before the code: an expired record is deleted with "OTP
   * expired" whatever code is submitted, the right one included.
   */
  lemma VerifyExpiredFirst(s: Store, phone: string, otp: string, now: int)
    requires phone in s && now > s[phone].expires
    ensures VerifyStep(s, phone, otp, now) == Step(Expired, s - {phone})
    ensures VerifyStep(s, phone, s[phone].otp, now) == Step(Expired, s - {phone})
  {
  }

  /** A record is still live at the very millisecond of its expiry. */
  lemma VerifyAtExpiry(s: Store, phone: string)
    requires phone in s
    ensures VerifyStep(s, phone, s[phone].otp, s[phone].expires) == Step(Accepted, s - {phone})
  {
  }

  /** A wrong code on a live record answers "Incorrect OTP" and keeps the record. */
  lemma VerifyMismatch(s: Store, phone: string, otp: string, now: int)
    requires phone in s && now <= s[phone].expires && s[phone].otp != otp
    ensures VerifyStep(s, phone, otp, now) == Step(Incorrect, s)
  {
  }

  /**
   * Sending and then verifying the sent code within five minutes is valid and
   * removes the record, so a second verification answers "No OTP sent".
   */
  lemma SendThenVerify(s: Store, phone: string, code: string, now: int, later: int, again: string, last: int)
    requires now <= later <= now + TtlMs
    ensures VerifyStep(Put(s, phone, code, now), phone, code, later) == Step(Accepted, s - {phone})
    ensures VerifyStep(s - {phone}, phone, again, last) == Step(NoOtpSent, s - {phone})
  {
    assert Put(s, phone, code, now) - {phone} == s - {phone};
  }

  /** Verifying later than five minutes after the send answers "OTP expired", even with the right code. */
  lemma SendThenExpire(s: Store, phone: string, code: string, now: int, later: int)
    requires later > now + TtlMs
    ensures VerifyStep(Put(s, phone, code, now), phone, code, later) == Step(Expired, s - {phone})
  {
    assert Put(s, phone, code, now) - {phone} == s - {phone};
  }

  /** After a wrong attempt the stored code still succeeds while it is live. */
  lemma RetryAfterIncorrect(s: Store, phone: string, code: string, wrong: string, now: int, t1: int, t2: int)
    requires wrong != code && now <= t1 <= now + TtlMs && now <= t2 <= now + TtlMs
    ensures VerifyStep(Put(s, phone, code, now), phone, wrong, t1) == Step(Incorrect, Put(s, phone, code, now))
    ensures VerifyStep(Put(s, phone, code, now), phone, code, t2).outcome == Accepted
  {
  }

  /** A second send replaces the first: the table holds one record per phone, and the old code no longer works. */
  lemma ResendReplaces(s: Store, phone: string, c1: string, t1: int, c2: string, t2: int, t: int)
    requires c1 != c2 && t2 <= t <= t2 + TtlMs
    ensures Put(Put(s, phone, c1, t1), phone, c2, t2) == Put(s, phone, c2, t2)
    ensures VerifyStep(Put(Put(s, phone, c1, t1), phone, c2, t2), phone, c1, t).outcome == Incorrect
  {
  }

  /** One request to the table, as the two handlers see it. */
  datatype Request =
    | SendRequest(phone: string, code: string, at: int)
    | VerifyRequest(phone: string, otp: string, at: int)

  function Apply(s: Store, q: Request): (r: Store) {
    match q
    case SendRequest(p, c, t) => Put(s, p, c, t)
    case VerifyRequest(p, o, t) => VerifyStep(s, p, o, t).store
  }

  /** The table after the requests `qs`, handled one after another. */
  function Run(s: Store, qs: seq<Request>): (r: Store)
    decreases |qs|
  {
    if qs == [] then s else Apply(Run(s, qs[..|qs| - 1]), qs[|qs| - 1])
  }

  /** Some send among `qs` wrote exactly `rec` for `phone`. */
  ghost predicate WrittenBy(qs: seq<Request>, phone: string, rec: Record) {
    exists i :: 0 <= i < |qs| && qs[i] == SendRequest(phone, rec.otp, rec.expires - TtlMs)
  }

  /**
   * Records are only created by sends and never changed otherwise: every entry
   * after a run of requests is either untouched from the start or exactly the
   * record some send wrote.
   */
  lemma {:induction false} RunProvenance(s: Store, qs: seq<Request>)
    ensures forall p :: p in Run(s, qs) ==> (p in s && Run(s, qs)[p] == s[p]) || WrittenBy(qs, p, Run(s, qs)[p])
  {
    if qs != [] {
      var pre := qs[..|qs| - 1];
      var q := qs[|qs| - 1];
      var r0 := Run(s, pre);
      var r := Run(s, qs);
      RunProvenance(s, pre);
      forall p | p in r
        ensures (p in s && r[p] == s[p]) || WrittenBy(qs, p, r[p])
      {
        if q.SendRequest? && q.phone == p {
          assert qs[|qs| - 1] == SendRequest(p, r[p].otp, r[p].expires - TtlMs);
        } else {
          assert p in r0 && r[p] == r0[p];
          if !(p in s && r0[p] == s[p]) {
            var i :| 0 <= i < |pre| && pre[i] == SendRequest(p, r0[p].otp, r0[p].expires - TtlMs);
            assert qs[i] == pre[i];
          }
        }
      }
    }
  }

  /** Starting from the empty table, when every send stores a well-formed code, every stored code is well formed. */
  lemma RunKeepsCodes(qs: seq<Request>)
    requires forall i :: 0 <= i < |qs| && qs[i].SendRequest? ==> IsOtpCode(qs[i].code)
    ensures forall p :: p in Run(map[], qs) ==> IsOtpCode(Run(map[], qs)[p].otp)
  {
    RunProvenance(map[], qs);
    var r := Run(map[], qs);
    forall p | p in r
      ensures IsOtpCode(r[p].otp)
    {
      var i :| 0 <= i < |qs| && qs[i] == SendRequest(p, r[p].otp, r[p].expires - TtlMs);
    }
  }

  /** The provider's answer to the message send of `/send-otp`. */
  datatype Delivery =
    | Delivered(messageId: Option<string>)  // `resp.data.messages?.[0]?.id`
    | Failed(errorBody: Option<string>)     // `err.response?.data`

  /** The answer of `/send-otp`: `{success: true, id}`, or status 500 with `{success: false, error}`. */
  datatype SendReply = SendOk(id: Option<string>) | SendFailed(error: Option<string>)
  {
    function Status(): nat {
      if SendOk? then 200 else 500
    }
  }

  /** A delivery failure surfaces as status 500 carrying the provider's error body unchanged. */
  function SendResponse(d: Delivery): (r: SendReply)
    ensures r.Status() == 200 <==> d.Delivered?
    ensures d.Delivered? ==> r.id == d.messageId
    ensures d.Failed? ==> r.error == d.errorBody
  {
    match d
    case Delivered(id) => SendOk(id)
    case Failed(body) => SendFailed(body)
  }

  /** The in-memory OTP table. */
  class Registry {
    var store: Store

    /** Every stored code is one the generator can produce. */
    ghost predicate Valid()
      reads this
    {
      forall p :: p in store ==> IsOtpCode(store[p].otp)
    }

    /** `new Map()`: the table starts empty. */
    constructor ()
      ensures store == map[] && Valid()
    {
      store := map[];
    }

    /** `otpStore.get(phone)`; in a valid table a found record holds a generated code. */
    method Lookup(phone: string) returns (r: Option<Record>)
      ensures r.Some? <==> phone in store
      ensures r.Some? ==> r.value == store[phone]
      ensures Valid() && r.Some? ==> IsOtpCode(r.value.otp)
    {
      if phone in store {
        r := Some(store[phone]);
      } else {
        r := None;
      }
    }

    /** `otpStore.set(phone, {otp, expires: now + 5 * 60 * 1000})`. */
    method Send(phone: string, code: string, now: int)
      modifies this
      ensures store == Put(old(store), phone, code, now)
      ensures old(Valid()) && IsOtpCode(code) ==> Valid()
    {
      store := store[phone := Record(code, now + TtlMs)];
    }

    /**
     * `/send-otp`: generate a code from the draw, store it, then report the
     * provider's answer.  The store write happens whatever the provider says:
     * a failed delivery does not roll it back.
     */
    method HandleSendOtp(phone: string, draw: nat, now: int, delivery: Delivery) returns (reply: SendReply)
      requires draw < DrawRange
      modifies this
      ensures store == Put(old(store), phone, GenerateOtp(draw), now)
      ensures reply == SendResponse(delivery)
      ensures old(Valid()) ==> Valid()
    {
      var otp := GenerateOtp(draw);
      Send(phone, otp, now);
      reply := SendResponse(delivery);
    }

    /**
     * `/verify-otp`: no record, then expiry, then the code, in that order.
     * Only an expired or matched record is deleted.
     */
    method Verify(phone: string, otp: string, now: int) returns (reply: VerifyReply)
      modifies this
      ensures store == VerifyStep(old(store), phone, otp, now).store
      ensures reply == Reply(VerifyStep(old(store), phone, otp, now).outcome)
      ensures old(Valid()) ==> Valid()
    {
      var record := Lookup(phone);
      if record.None? {
        return Reply(NoOtpSent);
      }
      if now > record.value.expires {
        store := store - {phone};
        return Reply(Expired);
      }
      if record.value.otp == otp {
        store := store - {phone};
        return Reply(Accepted);
      }
      return Reply(Incorrect);
    }
  }
}
