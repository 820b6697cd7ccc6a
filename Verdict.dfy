/** The combined verdict of one safe-status row: an ordered cascade of six
    rules in which the first rule that fires decides the label. */
module Verdict {
  import opened Telemetry

  /** Status marker reported when the safe was forced open. */
  const ForcedOpen := "Brangkas Dibuka Paksa"
  /** Status marker reported when the safe was opened legitimately. */
  const OpenedSafely := "Terbuka Secara Aman"

  // The six verdict labels, highest priority first.
  const Breached := "\U{26A0} Dibobol!"
  const Suspicious := "\U{1F6A8} Mencurigakan!"
  const Legitimate := "\U{2705} Sah & Aman"
  const DoorClosed := "pintu brangkastertutup"
  const MotionDetected := "\U{1F440} Gerakan Terdeteksi"
  const Safe := "\U{2705} Aman"

  /** The verdict each rule yields, indexed by the rule's rank. */
  const Verdicts: seq<string> := [Breached, Suspicious, Legitimate, DoorClosed, MotionDetected, Safe]

  /** The face classifier rejected the face, or the voice classifier the voice. */
  predicate IsSuspect(face: string, voice: string) {
    face == "Unknown" || face == "OTHER_FACES" || voice == "Not_User"
  }

  /** A valid distance reading strictly between 0 and 25 cm; NaN and the
      infinities never qualify. */
  predicate IsNear(d: Float) {
    d.Finite? && 0.0 < d.value < 25.0
  }

  /** A PIR reading of exactly 1; an absent (NaN) reading never qualifies. */
  predicate IsMotion(pir: Option<int>) {
    pir.Some? && pir.value == 1
  }

  /** Rule `k` of the cascade fires on row `r`; the last rule always fires. */
  predicate Fires(r: Row, k: nat) {
    if k == 0 then Contains(r.status, ForcedOpen)
    else if k == 1 then IsSuspect(r.face, r.voice)
    else if k == 2 then Contains(r.status, OpenedSafely)
    else if k == 3 then IsNear(r.distance)
    else if k == 4 then IsMotion(r.pir)
    else true
  }

  /** The first rule, at rank `k` or later, that fires on `r`. */
  function FirstFiring(r: Row, k: nat): (j: nat)
    requires k < |Verdicts|
    ensures k <= j < |Verdicts| && Fires(r, j)
    ensures forall i :: k <= i < j ==> !Fires(r, i)
    decreases |Verdicts| - k
  {
    if Fires(r, k) then k else FirstFiring(r, k + 1)
  }

  /** The verdict of a row, evaluated as a chain of guarded returns. The
      result is the verdict of the first rule that fires. */
  function Classify(r: Row): (v: string)
    ensures v == Verdicts[FirstFiring(r, 0)]
  {
    if Contains(r.status, ForcedOpen) then Breached
    else if IsSuspect(r.face, r.voice) then Suspicious
    else if Contains(r.status, OpenedSafely) then Legitimate
    else if IsNear(r.distance) then DoorClosed
    else if IsMotion(r.pir) then MotionDetected
    else Safe
  }

  /** The six labels are pairwise different, so a label identifies its rule. */
  lemma VerdictsDistinct()
    ensures forall i, j :: 0 <= i < j < |Verdicts| ==> Verdicts[i] != Verdicts[j]
  {
  }

  /** A row gets the verdict of rule `k` exactly when rule `k` fires and no
      earlier rule does. */
  lemma VerdictIff(r: Row, k: nat)
    requires k < |Verdicts|
    ensures Classify(r) == Verdicts[k] <==> Fires(r, k) && forall i :: 0 <= i < k ==> !Fires(r, i)
  {
  }

  /** The verdict depends only on the status, the two readings and the two
      predictions: neither the timestamp nor the previous label affect it. */
  lemma ClassifyIgnoresBookkeeping(r: Row, timestamp: string, verdict: string)
    ensures Classify(r.(timestamp := timestamp, verdict := verdict)) == Classify(r)
  {
  }

  /** A forced-open status yields "Dibobol!" whatever the other fields hold. */
  lemma ForcedOpenOverrides(r: Row)
    requires Contains(r.status, ForcedOpen)
    ensures Classify(r) == Breached
  {
  }

  /** A rejected face or voice beats a legitimate opening and both sensor
      rules: it decides the verdict even when one of those would fire. */
  lemma SuspectBeatsOpeningAndSensors(r: Row)
    requires !Contains(r.status, ForcedOpen) && IsSuspect(r.face, r.voice)
    requires Contains(r.status, OpenedSafely) || IsNear(r.distance) || IsMotion(r.pir)
    ensures Classify(r) == Suspicious
  {
  }

  /** A near distance beats a PIR reading of 1. */
  lemma NearBeatsMotion(r: Row)
    requires Classify(r) != Breached && Classify(r) != Suspicious && Classify(r) != Legitimate
    requires IsNear(r.distance) && IsMotion(r.pir)
    ensures Classify(r) == DoorClosed
  {
  }

  /** An absent reading never fires its rule: a NaN distance never yields
      the near-distance verdict and an absent PIR never the motion verdict,
      whatever the other reading holds. */
  lemma AbsentReadingsNeverFire(r: Row)
    ensures r.distance.NaN? ==> Classify(r) != DoorClosed
    ensures r.pir.None? ==> Classify(r) != MotionDetected
  {
  }

  /** With both readings absent the verdict is decided by the status and the
      predictions alone: it is "Aman" exactly when none of those rules fires. */
  lemma NoReadingsSafeIff(r: Row)
    requires r.distance == NaN && r.pir == None
    ensures Classify(r) == Safe <==>
      !Contains(r.status, ForcedOpen) && !IsSuspect(r.face, r.voice) && !Contains(r.status, OpenedSafely)
  {
  }

  /** When no rule before the last fires the verdict is "Aman", and only then. */
  lemma DefaultIsSafe(r: Row)
    ensures Classify(r) == Safe <==> forall i :: 0 <= i < 5 ==> !Fires(r, i)
  {
  }

  /** The "Menunggu..." placeholder is neither a rejected face nor a
      rejected voice: a row still waiting for both predictions is never
      suspicious on their account. */
  lemma WaitingIsNotSuspect()
    ensures !IsSuspect(Waiting, Waiting)
  {
  }
}
