/** The guard in front of the notification transport: a file is handed to the
    transport only when the bot is configured and the file is not larger than
    the configured ceiling. */
module Delivery {

  /** Notifier settings: bot token, target chat and size ceiling in MiB. */
  datatype Config = Config(botToken: string, chatId: string, maxMb: int)

  const MiB: nat := 1024 * 1024

  datatype Decision = NotConfigured | TooLarge | Deliver

  /** The size test as written, on exact reals: bytes / 1024 / 1024 > ceiling.
      Dividing by 1024 is exact in binary floating point, so for sizes below
      2^53 bytes the float computation of the code agrees with this one. */
  predicate ExceedsCeilingAsWritten(sizeBytes: nat, maxMb: int) {
    (sizeBytes as real) / 1024.0 / 1024.0 > maxMb as real
  }

  /** The delivery decision for a file of `sizeBytes` bytes. Configuration is
      checked first, then size, with a strict comparison. */
  function Gate(cfg: Config, sizeBytes: nat): (d: Decision)
    ensures d == Deliver <==> cfg.botToken != "" && cfg.chatId != "" && !ExceedsCeilingAsWritten(sizeBytes, cfg.maxMb)
    ensures d == NotConfigured <==> cfg.botToken == "" || cfg.chatId == ""
  {
    CeilingTestExact(sizeBytes, cfg.maxMb);
    if cfg.botToken == "" || cfg.chatId == "" then NotConfigured
    else if sizeBytes > cfg.maxMb * MiB then TooLarge
    else Deliver
  }

  /** The integer comparison of the model is the code's division-based test. */
  lemma CeilingTestExact(sizeBytes: nat, maxMb: int)
    ensures ExceedsCeilingAsWritten(sizeBytes, maxMb) <==> sizeBytes > maxMb * MiB
  {
    var x := sizeBytes as real;
    assert x / 1024.0 / 1024.0 == x / 1048576.0;
    assert (maxMb * MiB) as real == (maxMb as real) * 1048576.0;
  }

  /** A file of exactly the ceiling is delivered; one byte more is not. */
  lemma CeilingIsInclusive(cfg: Config)
    requires cfg.botToken != "" && cfg.chatId != "" && cfg.maxMb >= 0
    ensures Gate(cfg, cfg.maxMb * MiB) == Deliver
    ensures Gate(cfg, cfg.maxMb * MiB + 1) == TooLarge
  {
    CeilingTestExact(cfg.maxMb * MiB, cfg.maxMb);
    CeilingTestExact(cfg.maxMb * MiB + 1, cfg.maxMb);
  }

  /** What one call of the send helper did. A skip returns normally; only a
      transport failure raises. */
  datatype SendOutcome = Skipped(reason: Decision) | Sent | SendFailed

  /** Sending a file: the transport is reached only through the gate, and its
      success or failure is an input. The transport is called exactly when the
      bot is configured and the size test passes; a skip names its reason and
      never raises; a call raises exactly when the transport fails. */
  function Send(cfg: Config, sizeBytes: nat, transportOk: bool): (r: SendOutcome)
    ensures (r.Sent? || r.SendFailed?)
        <==> cfg.botToken != "" && cfg.chatId != "" && !ExceedsCeilingAsWritten(sizeBytes, cfg.maxMb)
    ensures r.Skipped? ==> r.reason != Deliver
    ensures r == Skipped(NotConfigured) <==> cfg.botToken == "" || cfg.chatId == ""
    ensures r == SendFailed ==> !transportOk
    ensures r == Sent ==> transportOk
  {
    var d := Gate(cfg, sizeBytes);
    if d != Deliver then Skipped(d)
    else if transportOk then Sent
    else SendFailed
  }
}
