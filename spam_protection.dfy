/** The anti-spam cooldown `spamProtection`: one storage entry, `lastPostTime`, holding the
    time of the last successful submission, and a fixed 60-second window. Clock readings
    (`Date.now()`) are passed in as `now`, in milliseconds. */
module SpamProtection {
  import opened Optional

  const CooldownMs: int := 60000

  /** `canPost()` at time `now`: allowed when no post is recorded, and otherwise only once
      strictly more than the window has passed since the recorded one. */
  function CanPostAt(last: Option<int>, now: int): (ok: bool)
    ensures last.None? ==> ok
    ensures last.Some? ==> (ok <==> now > last.value + CooldownMs)
  {
    match last
    case None => true
    case Some(t) => now - t > CooldownMs
  }

  /** `getCooldownRemaining()` at time `now`, in milliseconds: never negative, 0 with no
      record, at most the whole window when the clock has not gone backwards, and 0 whenever
      posting is allowed. It reaches 0 one millisecond before posting becomes allowed. */
  function CooldownRemaining(last: Option<int>, now: int): (r: int)
    ensures r >= 0
    ensures last.None? ==> r == 0
    ensures last.Some? && now >= last.value ==> r <= CooldownMs
    ensures CanPostAt(last, now) ==> r == 0
    ensures r == 0 <==> last.None? || now >= last.value + CooldownMs
    ensures last.Some? && r > 0 ==> now + r == last.value + CooldownMs
  {
    match last
    case None => 0
    case Some(t) => Max(0, CooldownMs - (now - t))
  }

  function Max(a: int, b: int): int {
    if a >= b then a else b
  }

  /** `Math.ceil(ms / 1000)`: the number of whole seconds shown in the "please wait" notice. */
  function WaitSeconds(ms: int): (s: int)
    ensures (s - 1) * 1000 < ms <= s * 1000
  {
    -((-ms) / 1000)
  }

  /** Once posting is allowed, it stays allowed as the clock moves on. */
  lemma CanPostStaysAllowed(last: Option<int>, now: int, later: int)
    requires later >= now && CanPostAt(last, now)
    ensures CanPostAt(last, later)
  {
  }

  /** Right after a post is recorded at `t`, posting at `t` is refused and the whole window remains. */
  lemma RecordedPostBlocksSameInstant(t: int)
    ensures !CanPostAt(Some(t), t)
    ensures CooldownRemaining(Some(t), t) == CooldownMs
    ensures WaitSeconds(CooldownRemaining(Some(t), t)) == 60
  {
  }

  /** The boundary instant: exactly one window after the recorded post, posting is still
      refused, yet the remaining time, and so the number of seconds shown, is already 0. */
  lemma BoundaryInstantShowsZeroWait(t: int)
    ensures !CanPostAt(Some(t), t + CooldownMs)
    ensures CooldownRemaining(Some(t), t + CooldownMs) == 0
    ensures WaitSeconds(CooldownRemaining(Some(t), t + CooldownMs)) == 0
  {
  }

  /** If the clock reads earlier than the recorded post, the remaining time exceeds the window. */
  lemma ClockBehindRecord(t: int, now: int)
    requires now < t
    ensures CooldownRemaining(Some(t), now) > CooldownMs
  {
  }

  /** The `lastPostTime` entry of browser storage. */
  class SpamGuard {
    var lastPostTime: Option<int>

    constructor (stored: Option<int>)
      ensures lastPostTime == stored
    {
      lastPostTime := stored;
    }

    /** `recordPost()` at time `now` overwrites the entry with `now`; from then on posting is
        refused at `now` and the full window remains. */
    method RecordPost(now: nat)
      modifies this
      ensures lastPostTime == Some(now)
      ensures !CanPostAt(lastPostTime, now) && CooldownRemaining(lastPostTime, now) == CooldownMs
    {
      lastPostTime := Some(now);
      RecordedPostBlocksSameInstant(now);
    }
  }
}
