/** The three-step delivery of a mailed credential, which runs after the commit that scheduled it:
    claim the row, send, record the outcome. Each step checks again that the row still waits. */
module Deliveries {
  import opened Prelude

  type Time = nat

  const HOUR: nat := 3_600_000_000

  datatype Delivery = Queued | Sent | Failed

  /** The delivery columns of a row. */
  datatype Mail = Mail(delivery: Delivery, attemptedAt: Option<Time>, deliveredAt: Option<Time>)

  /** How far the callback of a row has come. */
  datatype Phase = Scheduled | Claimed(at: Time) | Done

  const QUEUED := Mail(Queued, None, None)

  predicate MailFits(m: Mail) {
    (m.delivery.Queued? ==> m.deliveredAt.None?)
    && (m.delivery.Failed? ==> m.attemptedAt.Some? && m.deliveredAt.None?)
    && (m.delivery.Sent? ==> m.attemptedAt.Some? && m.deliveredAt.Some?)
  }

  /** Until its callback has finished, a row is queued, with the attempt its phase names. */
  predicate PhaseFits(m: Mail, phase: Phase) {
    (phase.Scheduled? ==> m == QUEUED) && (phase.Claimed? ==> m == Mail(Queued, Some(phase.at), None))
  }

  /** `open` says whether the row is pending and not yet due to expire. */
  function Claim(m: Mail, phase: Phase, open: bool, at: Time): (Mail, Phase) {
    if !phase.Scheduled? then (m, phase)
    else if open then (Mail(Queued, Some(at), m.deliveredAt), Claimed(at))
    else (m, Done)
  }

  function Finish(m: Mail, phase: Phase, pending: bool, sent: bool, at: Time): (Mail, Phase) {
    if !phase.Claimed? then (m, phase)
    else if !pending then (m, Done)
    else (Mail(if sent then Sent else Failed, Some(phase.at), if sent then Some(at) else None), Done)
  }

  /** Both steps keep the columns well-formed, touch a row only while it waits, and a finished
      callback never acts again. */
  lemma DeliveryStepsFit(m: Mail, phase: Phase, pending: bool, due: bool, sent: bool, at: Time)
    requires MailFits(m) && PhaseFits(m, phase)
    ensures var (mail, next) := Claim(m, phase, pending && !due, at);
            MailFits(mail) && PhaseFits(mail, next) && (!pending || phase.Done? ==> mail == m)
                && (phase.Done? ==> next.Done?)
    ensures var (mail, next) := Finish(m, phase, pending, sent, at);
            MailFits(mail) && PhaseFits(mail, next) && (!pending || phase.Done? ==> mail == m)
                && (phase.Done? ==> next.Done?)
  {
  }
}
