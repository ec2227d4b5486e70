/** `EvaluateIdleState` and the screen-off stamp it keeps, as functions of the observations made so far. */
module IdleDetection {
  import opened Basics

  datatype IdleState = NotIdle | ScreenOff | IdleCandidate

  /** What one evaluation gets to see: the screen, the monotonic clock in seconds and the safety checks. */
  datatype Observation = Observation(
    screenOn: bool,
    now: u64,
    batterySafe: bool,
    thermalSafe: bool,
    memorySafe: bool,
    heavyForeground: bool)
  {
    predicate Safe() { batterySafe && thermalSafe && memorySafe && !heavyForeground }
  }

  /** `idle_delay_minutes * 60` converted to `uint64_t`: a negative delay becomes enormous. */
  function RequiredDelay(minutes: int): u64 { AsU64(minutes * 60) }

  lemma {:induction false} DelayInSeconds(minutes: int)
    requires 0 <= minutes * 60 < MOD64
    ensures RequiredDelay(minutes) == minutes * 60
  {
  }

  /** The stamp after an observation; 0 stands for "no stamp". */
  function NextStamp(stamp: u64, o: Observation): u64 {
    if o.screenOn then 0 else if stamp == 0 then o.now else stamp
  }

  function Verdict(stamp: u64, o: Observation, minutes: int): IdleState {
    if o.screenOn then NotIdle
    else if AsU64(o.now - NextStamp(stamp, o)) < RequiredDelay(minutes) then ScreenOff
    else if !o.Safe() then ScreenOff
    else IdleCandidate
  }

  /** The stamp once the first `n` observations of a process have been made. */
  function StampAfter(obs: nat -> Observation, n: nat): u64 {
    if n == 0 then 0 else NextStamp(StampAfter(obs, n - 1), obs(n - 1))
  }

  /** What the evaluation that makes observation `i` returns. */
  function IdleAt(obs: nat -> Observation, i: nat, minutes: int): IdleState {
    Verdict(StampAfter(obs, i), obs(i), minutes)
  }

  /**
   * The verdict in terms of what is observed: not idle exactly with the screen on, and a
   * candidate exactly when it is off, the delay has passed since the stamp (in unsigned
   * 64-bit arithmetic), battery, temperature and memory are safe, and nothing heavy runs.
   */
  lemma {:induction false} VerdictExactly(obs: nat -> Observation, i: nat, minutes: int)
    ensures IdleAt(obs, i, minutes).NotIdle? <==> obs(i).screenOn
    ensures IdleAt(obs, i, minutes).IdleCandidate? <==>
      && !obs(i).screenOn
      && (obs(i).now - StampAfter(obs, i + 1)) % 0x1_0000_0000_0000_0000 >= minutes * 60 % 0x1_0000_0000_0000_0000
      && obs(i).batterySafe && obs(i).thermalSafe && obs(i).memorySafe && !obs(i).heavyForeground
  {
    assert StampAfter(obs, i + 1) == NextStamp(StampAfter(obs, i), obs(i));
  }

  ghost predicate NoLater(obs: nat -> Observation, i: nat, j: nat) { obs(i).now <= obs(j).now }

  ghost predicate Monotonic(obs: nat -> Observation) {
    forall i: nat, j: nat :: i <= j ==> NoLater(obs, i, j)
  }

  /** A set stamp is the time of an observation since which every one saw the screen off. */
  lemma {:induction false} StampWitness(obs: nat -> Observation, n: nat) returns (q: nat)
    requires StampAfter(obs, n) != 0
    ensures q < n && obs(q).now == StampAfter(obs, n)
    ensures forall i :: q <= i < n ==> !obs(i).screenOn
  {
    if StampAfter(obs, n - 1) != 0 {
      q := StampWitness(obs, n - 1);
    } else {
      q := n - 1;
    }
  }

  /** While the screen stays off the stamp, once set, does not move. */
  lemma {:induction false} StampStays(obs: nat -> Observation, m: nat, n: nat)
    requires m <= n && StampAfter(obs, m) != 0
    requires forall i :: m <= i < n ==> !obs(i).screenOn
    ensures StampAfter(obs, n) == StampAfter(obs, m)
  {
    if m < n { StampStays(obs, m, n - 1); }
  }
}
