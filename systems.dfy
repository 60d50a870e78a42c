/** The run-once latch: a run criterion that lets a system set run on its first frame only. */
module Systems {

  datatype ShouldRun = Yes | No

  /** `run_only_once` on the marker's flag: the new flag and the answer. */
  function Latch(hasRun: bool): (bool, ShouldRun)
  {
    if !hasRun then (true, Yes) else (hasRun, No)
  }

  /** The `HasRunMarker` resource: whether the guarded set has run, and a payload. */
  class HasRunMarker<T> {
    var hasRun: bool
    var payload: T

    constructor(hasRun: bool, payload: T)
      ensures this.hasRun == hasRun && this.payload == payload
    {
      this.hasRun := hasRun;
      this.payload := payload;
    }

    /** `run_only_once`. */
    method RunOnlyOnce() returns (r: ShouldRun)
      modifies this
      ensures (hasRun, r) == Latch(old(hasRun))
      ensures payload == old(payload)
    {
      if !hasRun {
        hasRun := true;
        return Yes;
      }
      return No;
    }
  }

  /** The answers of `n` consecutive calls starting from a flag. */
  function Answers(hasRun: bool, n: nat): seq<ShouldRun>
    decreases n
  {
    if n == 0 then []
    else
      var (next, r) := Latch(hasRun);
      [r] + Answers(next, n - 1)
  }

  /** A call answers Yes exactly when the flag was clear, and afterwards the flag is set. */
  lemma LatchEffect(hasRun: bool)
    ensures Latch(hasRun).0
    ensures Latch(hasRun).1 == Yes <==> !hasRun
    ensures hasRun ==> Latch(hasRun).0 == hasRun
  {
  }

  /** Once the flag is set every call answers No. */
  lemma {:induction false} SetFlagAnswersNo(n: nat)
    ensures |Answers(true, n)| == n
    ensures forall i :: 0 <= i < n ==> Answers(true, n)[i] == No
  {
    if n > 0 {
      SetFlagAnswersNo(n - 1);
    }
  }

  /** From a clear flag, any number of calls answers Yes once, on the first call. */
  lemma RunsExactlyOnce(n: nat)
    requires n > 0
    ensures |Answers(false, n)| == n
    ensures Answers(false, n)[0] == Yes
    ensures forall i :: 0 < i < n ==> Answers(false, n)[i] == No
  {
    SetFlagAnswersNo(n - 1);
    assert Answers(false, n) == [Yes] + Answers(true, n - 1);
  }
}
