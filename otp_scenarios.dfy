/**
 * Clients of `OtpRegistry.Registry`: the lifecycle of one phone's OTP,
 * proved from the method contracts alone, for any phone, draw, clock and
 * provider answer.
 */
module OtpScenarios {
  import opened Wrappers
  import opened OtpCode
  import opened OtpRegistry

  /**
   * Send, then verify the sent code twice within five minutes: the first is
   * valid, the second finds no record.  This holds even when the provider
   * failed to deliver the message.
   */
  method SingleUse(phone: string, draw: nat, now: int, later: int, delivery: Delivery)
    returns (first: VerifyReply, second: VerifyReply)
    requires draw < DrawRange && now <= later <= now + TtlMs
    ensures first == VerifyReply(true, None)
    ensures second == VerifyReply(false, Some("No OTP sent"))
  {
    var registry := new Registry();
    var sent := registry.HandleSendOtp(phone, draw, now, delivery);
    var code := GenerateOtp(draw);
    first := registry.Verify(phone, code, later);
    second := registry.Verify(phone, code, later);
  }

  /** A wrong code is refused without consuming the record, and the right one then succeeds. */
  method WrongThenRight(phone: string, draw: nat, wrong: string, now: int, t1: int, t2: int)
    returns (first: VerifyReply, second: VerifyReply)
    requires draw < DrawRange && wrong != GenerateOtp(draw)
    requires now <= t1 <= now + TtlMs && now <= t2 <= now + TtlMs
    ensures first == VerifyReply(false, Some("Incorrect OTP"))
    ensures second == VerifyReply(true, None)
  {
    var registry := new Registry();
    var sent := registry.HandleSendOtp(phone, draw, now, Delivered(None));
    first := registry.Verify(phone, wrong, t1);
    second := registry.Verify(phone, GenerateOtp(draw), t2);
  }

  /** After five minutes the right code is refused as expired, and the record is gone. */
  method ExpiredThenGone(phone: string, draw: nat, now: int, later: int, last: int)
    returns (first: VerifyReply, second: VerifyReply)
    requires draw < DrawRange && later > now + TtlMs
    ensures first == VerifyReply(false, Some("OTP expired"))
    ensures second == VerifyReply(false, Some("No OTP sent"))
  {
    var registry := new Registry();
    var sent := registry.HandleSendOtp(phone, draw, now, Delivered(None));
    first := registry.Verify(phone, GenerateOtp(draw), later);
    second := registry.Verify(phone, GenerateOtp(draw), last);
  }

  /** A failed delivery still answers 500 and leaves the new code in the table. */
  method FailedDeliveryKeepsRecord(phone: string, draw: nat, now: int, body: Option<string>)
    returns (reply: SendReply, stored: Option<Record>)
    requires draw < DrawRange
    ensures reply == SendFailed(body) && reply.Status() == 500
    ensures stored == Some(Record(GenerateOtp(draw), now + TtlMs))
  {
    var registry := new Registry();
    reply := registry.HandleSendOtp(phone, draw, now, Failed(body));
    stored := registry.Lookup(phone);
  }
}
