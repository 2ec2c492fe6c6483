/** The driver's collaborators as a whole: the chip behind the bus and pins,
    plus a failure plan saying which of the steps the driver attempts fail.
    `Perform` is the pattern every driver operation follows: attempt a fixed
    list of steps in order and stop at the first failure, reporting a pin
    failure as `PinError` and a bus failure as `SpiError` (the Rust `?`
    operator after `map_err`). `Follows` states that pattern as a contract. */
module Bus {
  import opened Bits
  import opened Protocol
  import opened Chip

  /** Whether a collaborator carries out an attempted step, or fails it with
      a failure code. */
  datatype Fault = Proceed | Fail(code: int)

  /** The collaborators: the chip, and the failure plan. The k-th step the
      driver attempts meets `faults[k]`; steps past the end of the plan all
      proceed. */
  datatype Env = Env(chip: Chip, faults: seq<Fault>)

  /** The position of the first failing step of a plan (its length if none). */
  function FirstFault(f: seq<Fault>): (n: nat)
    ensures n <= |f|
    ensures forall k :: 0 <= k < n ==> f[k].Proceed?
    ensures n < |f| ==> f[n].Fail?
    decreases |f|
  {
    if f == [] then 0 else if f[0].Fail? then 0 else 1 + FirstFault(f[1..])
  }

  /** None of the first `n` steps of the plan fails. */
  predicate FaultFree(f: seq<Fault>, n: nat)
  {
    forall k :: 0 <= k < n && k < |f| ==> f[k].Proceed?
  }

  /** The plan left after `k` attempted steps. */
  function Drop(f: seq<Fault>, k: nat): seq<Fault>
  {
    if k <= |f| then f[k..] else []
  }

  /** How the driver reports a failed step: bus failures as `SpiError`,
      pin failures as `PinError`, each carrying the collaborator's code. */
  function ErrorFor(e: Event, code: int): Error
  {
    if e.Exchange? then SpiError(code) else PinError(code)
  }

  /** The contract of a run that attempts the steps of `nominal` in order:
      if one of them fails, the trace ends with it and the run reports it;
      otherwise all of them happen and the run reports no error. */
  predicate Follows(f: seq<Fault>, nominal: seq<Event>, trace: seq<Event>, err: Option<Error>)
  {
    var n := FirstFault(f);
    if n < |nominal| && n < |f| then
      trace == nominal[..n + 1] && err == Some(ErrorFor(nominal[n], f[n].code))
    else
      trace == nominal && err == None
  }

  /** What a run of steps produced: the bytes each step clocked in (or the
      error), the steps attempted, and the collaborators afterwards. */
  datatype Performed = Performed(outcome: Result<seq<seq<Byte>>>, trace: seq<Event>, env: Env)

  /** Attempt `events` in order, stopping at the first failure. A failed step
      does not reach the chip; a successful run leaves the chip exactly as
      the fault-free run of the same events does. */
  function Perform(env: Env, events: seq<Event>): (r: Performed)
    ensures Follows(env.faults, events, r.trace, ErrorOf(r.outcome))
    ensures r.env.faults == Drop(env.faults, |r.trace|)
    ensures r.outcome.Ok? ==> r.env.chip == ChipRun(env.chip, events).chip
    ensures r.outcome.Ok? ==> r.outcome.value == ChipRun(env.chip, events).rxs
    decreases |events|
  {
    if events == [] then Performed(Ok([]), [], env)
    else
      var e := events[0];
      var rest := Drop(env.faults, 1);
      if |env.faults| > 0 && env.faults[0].Fail? then
        Performed(Err(ErrorFor(e, env.faults[0].code)), [e], Env(env.chip, rest))
      else
        var step := ChipStep(env.chip, e);
        var tail := Perform(Env(step.chip, rest), events[1..]);
        FirstFaultStep(env.faults);
        DropDrop(env.faults, 1, |tail.trace|);
        assert events == [e] + events[1..];
        Performed(
          match tail.outcome
          case Ok(rxs) => Ok([step.rx] + rxs)
          case Err(err) => Err(err),
          [e] + tail.trace,
          tail.env)
  }

  /** A step that proceeds moves the first failure one step closer. */
  lemma FirstFaultStep(f: seq<Fault>)
    requires !(|f| > 0 && f[0].Fail?)
    ensures FirstFault(f) == if f == [] then 0 else 1 + FirstFault(Drop(f, 1))
  {
  }

  /** Dropping the steps before the first failure moves it to the front. */
  lemma {:induction false} FirstFaultDrop(f: seq<Fault>, k: nat)
    requires k <= FirstFault(f)
    ensures FirstFault(Drop(f, k)) == FirstFault(f) - k
    decreases k
  {
    if k > 0 {
      FirstFaultDrop(f[1..], k - 1);
      assert Drop(f[1..], k - 1) == Drop(f, k);
    }
  }

  /** A plan with no failing step among its first `n` has its first failure
      at `n` or later, or none at all. */
  lemma FaultFreeFirst(f: seq<Fault>, n: nat)
    ensures FaultFree(f, n) <==> (FirstFault(f) >= n || FirstFault(f) == |f|)
  {
  }

  /** Steps are consumed one per attempt. */
  lemma DropDrop(f: seq<Fault>, a: nat, b: nat)
    ensures Drop(Drop(f, a), b) == Drop(f, a + b)
  {
  }

  /** A plan fault-free for `a + b` steps is fault-free for `b` more steps
      once `a` have been taken. */
  lemma FaultFreeDrop(f: seq<Fault>, a: nat, b: nat)
    requires FaultFree(f, a + b)
    ensures FaultFree(Drop(f, a), b)
    ensures FaultFree(f, a)
  {
    if a <= |f| {
      forall k | 0 <= k < b && k < |f[a..]|
        ensures f[a..][k].Proceed?
      {
        assert f[a..][k] == f[a + k];
      }
    }
  }

  /** A run that completes its steps followed by a run of further steps on
      what is left of the plan follows the concatenated steps. */
  lemma FollowsThen(f: seq<Fault>, n1: seq<Event>, t1: seq<Event>, n2: seq<Event>, t2: seq<Event>, err: Option<Error>)
    requires Follows(f, n1, t1, None)
    requires Follows(Drop(f, |n1|), n2, t2, err)
    ensures Follows(f, n1 + n2, t1 + t2, err)
  {
    var n := FirstFault(f);
    if n == |f| {
      assert FirstFault(Drop(f, |n1|)) == |Drop(f, |n1|)| by {
        if |n1| <= |f| {
          FirstFaultDrop(f, |n1|);
        }
      }
    } else {
      assert |n1| <= n;
      FirstFaultDrop(f, |n1|);
      var m := n - |n1|;
      if m < |n2| {
        assert Drop(f, |n1|)[m] == f[n];
        assert (n1 + n2)[..n + 1] == n1 + n2[..m + 1];
        assert (n1 + n2)[n] == n2[m];
      }
    }
  }

  /** A run that fails stops: whatever was to follow is not attempted. */
  lemma FollowsStop(f: seq<Fault>, n1: seq<Event>, t1: seq<Event>, e: Error, n2: seq<Event>)
    requires Follows(f, n1, t1, Some(e))
    ensures Follows(f, n1 + n2, t1, Some(e))
  {
    var n := FirstFault(f);
    assert (n1 + n2)[..n + 1] == n1[..n + 1];
    assert (n1 + n2)[n] == n1[n];
  }

  /** With no failure planned among its steps, a run attempts all of them
      and reports no error. */
  lemma FaultFreeFollows(f: seq<Fault>, nominal: seq<Event>, trace: seq<Event>, err: Option<Error>)
    requires FaultFree(f, |nominal|)
    requires Follows(f, nominal, trace, err)
    ensures trace == nominal && err == None
  {
    FaultFreeFirst(f, |nominal|);
  }
}
