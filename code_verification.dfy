/**
 * The messenger side of the application: whether the MAX messenger is
 * configured, whom a message goes to, and the table of one-time confirmation
 * codes that gates encryption and decryption. The clock is an explicit `now`
 * in whole seconds and the secure random source is an explicit sequence of
 * digit choices.
 */
module Messenger {
  import opened Wrappers

  /** The alphabet codes are drawn from. */
  const DIGITS: string := "0123456789"
  /** Codes issued by the confirmation table have six digits. */
  const CODE_LENGTH: nat := 6
  /** A code lives ten minutes. */
  const CODE_EXPIRY_MINUTES: nat := 10
  const CODE_EXPIRY_SECONDS: nat := CODE_EXPIRY_MINUTES * 60

  const NOT_CONFIGURED := "Мессенджер не настроен"
  const MSG_NOT_FOUND := "Код не найден или истек"
  const MSG_EXPIRED := "Код истек"
  const MSG_MISMATCH := "Код не соответствует операции"
  const MSG_CONFIRMED := "Код подтвержден"

  // ---------------------------------------------------------------------------
  // Messenger configuration

  /** Messenger settings; the source rebuilds the object whenever they change. */
  datatype MaxMessenger = MaxMessenger(apiKey: string, chatId: string, phoneNumber: string)
  {
    /** Usable only with an API key and at least one way to reach the recipient. */
    predicate Enabled()
    {
      apiKey != "" && (chatId != "" || phoneNumber != "")
    }

    /** An explicit non-empty recipient, else the chat id, else the phone number. */
    function Recipient(recipient: Option<string>): (r: string)
      ensures recipient.Some? && recipient.value != "" ==> r == recipient.value
      ensures (recipient.None? || recipient.value == "") && chatId != "" ==> r == chatId
      ensures (recipient.None? || recipient.value == "") && chatId == "" ==> r == phoneNumber
    {
      if recipient.Some? && recipient.value != "" then recipient.value
      else if chatId != "" then chatId
      else phoneNumber
    }

    /**
     * The part of sending that precedes the network call: refuse when not
     * configured, otherwise pick the recipient, which is then never empty.
     */
    function PrepareSend(recipient: Option<string>): (r: Result<string, string>)
      ensures r.Failure? <==> !Enabled()
      ensures r.Failure? ==> r.error == NOT_CONFIGURED
      ensures r.Success? ==> r.value == Recipient(recipient) && r.value != ""
    {
      if !Enabled() then Failure(NOT_CONFIGURED)
      else Success(Recipient(recipient))
    }
  }

  /** Builds a code by drawing one digit per choice from the alphabet. */
  method GenerateVerificationCode(choices: seq<nat>) returns (code: string)
    requires forall i | 0 <= i < |choices| :: choices[i] < |DIGITS|
    ensures |code| == |choices|
    ensures forall i | 0 <= i < |code| :: code[i] == DIGITS[choices[i]]
    ensures IsDigits(code)
  {
    code := "";
    for i := 0 to |choices|
      invariant |code| == i
      invariant forall k | 0 <= k < i :: code[k] == DIGITS[choices[k]]
    {
      code := code + [DIGITS[choices[i]]];
    }
  }

  predicate IsDigits(s: string)
  {
    forall i | 0 <= i < |s| :: '0' <= s[i] <= '9'
  }

  // ---------------------------------------------------------------------------
  // The confirmation-code table, as values

  /** What the table remembers about an issued code. */
  datatype Pending = Pending(operation: string, timestamp: int, recordId: Option<int>)

  /** The four outcomes of a verification. */
  datatype Verdict = NotFound | Expired | Mismatched | Verified

  /** A verification's outcome together with the table it leaves behind. */
  datatype Step = Step(verdict: Verdict, codes: map<string, Pending>)

  /** Older than ten minutes; exactly ten minutes is still live. */
  predicate IsExpired(p: Pending, now: int)
  {
    now - p.timestamp > CODE_EXPIRY_SECONDS
  }

  /** The text the source returns beside the verdict. */
  function Message(v: Verdict): (m: string)
    ensures m == MSG_CONFIRMED <==> v == Verified
  {
    match v
    case NotFound => MSG_NOT_FOUND
    case Expired => MSG_EXPIRED
    case Mismatched => MSG_MISMATCH
    case Verified => MSG_CONFIRMED
  }

  /**
   * One verification: an unknown code changes nothing; an expired one is
   * dropped; a live one with another operation stays; a live matching one is
   * consumed.
   */
  function Verify(codes: map<string, Pending>, code: string, operation: string, now: int): (r: Step)
    ensures r.verdict == NotFound <==> code !in codes
    ensures r.verdict == Expired <==> code in codes && IsExpired(codes[code], now)
    ensures r.verdict == Verified <==> code in codes && !IsExpired(codes[code], now) && codes[code].operation == operation
    ensures code in r.codes <==> r.verdict == Mismatched
    ensures r.verdict == Mismatched ==> r.codes == codes
    ensures forall c | c != code :: (c in r.codes <==> c in codes) && (c in codes ==> r.codes[c] == codes[c])
  {
    if code !in codes then Step(NotFound, codes)
    else
      var entry := codes[code];
      if IsExpired(entry, now) then Step(Expired, codes - {code})
      else if entry.operation != operation then Step(Mismatched, codes)
      else Step(Verified, codes - {code})
  }

  /** The table without its expired entries. */
  function Sweep(codes: map<string, Pending>, now: int): (r: map<string, Pending>)
    ensures forall c :: c in r <==> c in codes && !IsExpired(codes[c], now)
    ensures forall c | c in r :: r[c] == codes[c]
  {
    map c | c in codes && !IsExpired(codes[c], now) :: codes[c]
  }

  // ---------------------------------------------------------------------------
  // Lemmas about verification and sweeping

  /** A code that verified is gone: the next attempt, with any operation at any time, finds nothing. */
  lemma VerifiedIsSingleUse(codes: map<string, Pending>, code: string, operation: string, now: int,
                            operation': string, now': int)
    requires Verify(codes, code, operation, now).verdict == Verified
    ensures Verify(Verify(codes, code, operation, now).codes, code, operation', now').verdict == NotFound
  {
  }

  /** An expired code is gone: asking again finds nothing rather than "expired". */
  lemma ExpiredThenNotFound(codes: map<string, Pending>, code: string, operation: string, now: int,
                            operation': string, now': int)
    requires Verify(codes, code, operation, now).verdict == Expired
    ensures Verify(Verify(codes, code, operation, now).codes, code, operation', now').verdict == NotFound
  {
  }

  /** Expiry is checked before the operation: an expired code asked for with the wrong operation is still removed. */
  lemma ExpiryBeforeOperation(codes: map<string, Pending>, code: string, operation: string, now: int)
    requires code in codes && IsExpired(codes[code], now) && codes[code].operation != operation
    ensures Verify(codes, code, operation, now) == Step(Expired, codes - {code})
  {
  }

  /** The boundary: an entry exactly ten minutes old is live, one second later it has expired. */
  lemma ExpiryBoundary(p: Pending)
    ensures !IsExpired(p, p.timestamp + 600)
    ensures IsExpired(p, p.timestamp + 601)
  {
  }

  /**
   * A wrong operation does not burn the code: after a mismatch, the right
   * operation at any time that is still within ten minutes of issue succeeds.
   */
  lemma MismatchKeepsCodeUsable(codes: map<string, Pending>, code: string, wrong: string, now: int, later: int)
    requires Verify(codes, code, wrong, now).verdict == Mismatched
    requires later - codes[code].timestamp <= CODE_EXPIRY_SECONDS
    ensures Verify(Verify(codes, code, wrong, now).codes, code, codes[code].operation, later).verdict == Verified
  {
  }

  /** The record id stored with a code never influences the verdict or which entries remain. */
  lemma RecordIdIrrelevant(codes: map<string, Pending>, code: string, p: Pending, otherId: Option<int>,
                           operation: string, now: int)
    ensures Verify(codes[code := p], code, operation, now).verdict
         == Verify(codes[code := p.(recordId := otherId)], code, operation, now).verdict
    ensures Verify(codes[code := p], code, operation, now).codes.Keys
         == Verify(codes[code := p.(recordId := otherId)], code, operation, now).codes.Keys
  {
  }

  /** Sweeping twice at the same time is the same as sweeping once. */
  lemma SweepIdempotent(codes: map<string, Pending>, now: int)
    ensures Sweep(Sweep(codes, now), now) == Sweep(codes, now)
  {
  }

  /** After a sweep, verifying at the same time never reports "expired"; on live codes the sweep changes no verdict. */
  lemma SweepThenVerify(codes: map<string, Pending>, code: string, operation: string, now: int)
    ensures Verify(Sweep(codes, now), code, operation, now).verdict != Expired
    ensures Verify(codes, code, operation, now).verdict != Expired ==>
              Verify(Sweep(codes, now), code, operation, now).verdict == Verify(codes, code, operation, now).verdict
  {
  }

  // ---------------------------------------------------------------------------
  // The table as the source keeps it

  class CodeVerification {
    /** code -> what was issued under it */
    var activeCodes: map<string, Pending>

    constructor ()
      ensures activeCodes == map[]
    {
      activeCodes := map[];
    }

    /**
     * Issues a six-digit code for `operation`, stamped with `now`; an entry
     * already stored under the same code is replaced, every other entry stays.
     */
    method GenerateAndStoreCode(operation: string, recordId: Option<int>, choices: seq<nat>, now: int)
      returns (code: string)
      requires |choices| == CODE_LENGTH
      requires forall i | 0 <= i < |choices| :: choices[i] < |DIGITS|
      modifies this
      ensures |code| == CODE_LENGTH && IsDigits(code)
      ensures activeCodes == old(activeCodes)[code := Pending(operation, now, recordId)]
    {
      code := GenerateVerificationCode(choices);
      activeCodes := activeCodes[code := Pending(operation, now, recordId)];
    }

    /** Checks `code` against the expected operation, following `Verify`. */
    method VerifyCode(code: string, operation: string, now: int) returns (valid: bool, message: string)
      modifies this
      ensures var step := Verify(old(activeCodes), code, operation, now);
        && valid == (step.verdict == Verified)
        && message == Message(step.verdict)
        && activeCodes == step.codes
    {
      if code !in activeCodes {
        return false, MSG_NOT_FOUND;
      }
      var codeData := activeCodes[code];
      if now - codeData.timestamp > CODE_EXPIRY_SECONDS {
        activeCodes := activeCodes - {code};
        return false, MSG_EXPIRED;
      }
      if codeData.operation != operation {
        return false, MSG_MISMATCH;
      }
      activeCodes := activeCodes - {code};
      return true, MSG_CONFIRMED;
    }

    /** Collects the expired codes, then deletes them one at a time. */
    method CleanupExpiredCodes(now: int)
      modifies this
      ensures activeCodes == Sweep(old(activeCodes), now)
    {
      var expiredCodes := set c | c in activeCodes && now - activeCodes[c].timestamp > CODE_EXPIRY_SECONDS;
      var pending := expiredCodes;
      while pending != {}
        invariant pending <= expiredCodes
        invariant activeCodes == old(activeCodes) - (expiredCodes - pending)
        decreases pending
      {
        var c :| c in pending;
        activeCodes := activeCodes - {c};
        pending := pending - {c};
      }
      assert activeCodes == Sweep(old(activeCodes), now);
    }
  }
}
