/** The in-memory one-time-password store (`OTP_STORE`): email -> (code, expiry). */
module OtpService {

  const OtpLifetimeMs := 5 * 60 * 1000   // five minutes

  datatype OtpRecord = OtpRecord(otp: string, expiresAt: int)

  class OtpStore {
    var records: map<string, OtpRecord>

    /** `storeOtp`: the code for `email` is replaced, valid until `now` plus five minutes. */
    method StoreOtp(email: string, otp: string, now: int)
      modifies this
      ensures email in records && records[email] == OtpRecord(otp, now + OtpLifetimeMs)
      ensures forall e :: e in old(records) && e != email ==> e in records && records[e] == old(records)[e]
      ensures records.Keys == old(records).Keys + {email}
    {
      records := records[email := OtpRecord(otp, now + OtpLifetimeMs)];
    }

    /** `verifyOtp`: a read of the store; the expiry instant itself is still accepted. */
    function VerifyOtp(email: string, otp: string, now: int): (ok: bool)
      reads this
      ensures email !in records ==> !ok
      ensures email in records && now > records[email].expiresAt ==> !ok
      ensures email in records && now <= records[email].expiresAt ==> (ok <==> records[email].otp == otp)
    {
      email in records && now <= records[email].expiresAt && records[email].otp == otp
    }
  }

  /** A code just stored verifies at any time up to five minutes later. */
  lemma StoreThenVerify(store: OtpStore, email: string, otp: string, storedAt: int, now: int)
    requires email in store.records && store.records[email] == OtpRecord(otp, storedAt + OtpLifetimeMs)
    requires now <= storedAt + OtpLifetimeMs
    ensures store.VerifyOtp(email, otp, now)
  {
  }

  /** Once expired, no code verifies, the right one included. */
  lemma ExpiredNeverVerifies(store: OtpStore, email: string, otp: string, storedAt: int, now: int)
    requires email in store.records && store.records[email].expiresAt == storedAt + OtpLifetimeMs
    requires now > storedAt + OtpLifetimeMs
    ensures !store.VerifyOtp(email, otp, now)
  {
  }
}
