/** The door a terminal call passes (scientist/agent.py,
    scientist/assistant_tools.py). */
module ListeningDoor {
  import opened Basics

  const REFUSALS_MAX := 3

  /** A terminal call at the moment it is made. For a delivery, when the source
      tree last changed and when each Reviewer engagement finished. */
  datatype Attempt =
    | Deliver(wellFormed: bool, lastWrite: int, reviewed: set<int>)
    | Abstain(wellFormed: bool)

  datatype Verdict = Accepted | Malformed | Unheard

  predicate Heard(a: Attempt)
    requires a.Deliver?
  {
    exists finished | finished in a.reviewed :: finished > a.lastWrite
  }

  /** `validate_conclusion`, its message reduced to the branch that wrote it. */
  function Validate(a: Attempt, enforce: bool): Verdict {
    if !a.wellFormed then Malformed
    else if a.Deliver? && enforce && !Heard(a) then Unheard
    else Accepted
  }

  /** Refusals for want of a hearing after these attempts, none accepted. */
  function Refusals(attempts: seq<Attempt>): nat {
    if attempts == [] then 0
    else
      var before := Refusals(attempts[..|attempts| - 1]);
      before + if Validate(attempts[|attempts| - 1], before < REFUSALS_MAX) == Unheard then 1 else 0
  }

  function Answered(attempts: seq<Attempt>): Verdict
    requires attempts != []
  {
    Validate(attempts[|attempts| - 1], Refusals(attempts[..|attempts| - 1]) < REFUSALS_MAX)
  }

  lemma OneMore(attempts: seq<Attempt>, a: Attempt)
    ensures Answered(attempts + [a]) == Validate(a, Refusals(attempts) < REFUSALS_MAX)
    ensures Refusals(attempts + [a]) == Refusals(attempts) + if Answered(attempts + [a]) == Unheard then 1 else 0
  {
    assert (attempts + [a])[..|attempts|] == attempts;
  }

  /** Deliveries that deserved a hearing and had none, however many. */
  function UnheardDeliveries(attempts: seq<Attempt>): nat {
    if attempts == [] then 0
    else
      var last := attempts[|attempts| - 1];
      UnheardDeliveries(attempts[..|attempts| - 1])
      + if last.Deliver? && last.wellFormed && !Heard(last) then 1 else 0
  }

  /** The count is the number of unheard deliveries, stopped at three: malformed
      calls in between neither add nor reset. */
  lemma {:induction false} RefusalsAreCapped(attempts: seq<Attempt>)
    ensures Refusals(attempts)
            == if UnheardDeliveries(attempts) < REFUSALS_MAX then UnheardDeliveries(attempts) else REFUSALS_MAX
  {
    if attempts != [] {
      RefusalsAreCapped(attempts[..|attempts| - 1]);
    }
  }

  /** When the door lets a call through. */
  lemma AcceptedExactly(attempts: seq<Attempt>)
    requires attempts != []
    ensures var last, earlier := attempts[|attempts| - 1], attempts[..|attempts| - 1];
      Answered(attempts) == Accepted <==>
        last.wellFormed && (last.Abstain? || Heard(last) || UnheardDeliveries(earlier) >= REFUSALS_MAX)
  {
    RefusalsAreCapped(attempts[..|attempts| - 1]);
  }
}
