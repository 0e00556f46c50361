/** Time-based one-time passwords: section 5.3 of RFC 4226 and section 4.2 of RFC 6238, and the
    clock and replay part of verification. */
module Totp {
  import opened Wrappers

  type Octet = n: int | 0 <= n < 256

  /** HMAC-SHA1 of the counter under the decoded secret: any function to 20 octets. The secret is
      stored in base 32 and may fail to decode. */
  type Mac = (string, nat) -> seq<Octet>

  datatype Hasher = Hasher(decodable: string -> bool, mac: Mac)

  ghost predicate Sha1Sized(h: Hasher) {
    forall secret, counter {:trigger h.mac(secret, counter)} :: |h.mac(secret, counter)| == 20
  }

  const STEP := 30
  const SECOND := 1_000_000_000

  /** The time step of a clock reading in nanoseconds since the epoch. */
  function StepOf(now: nat): nat {
    now / SECOND / STEP
  }

  /** Steps are thirty seconds long, from the epoch on. */
  lemma StepIsThirtySeconds(now: nat)
    ensures StepOf(now) * 30_000_000_000 <= now < (StepOf(now) + 1) * 30_000_000_000
  {
  }

  /** Big-endian combination of four octets. */
  function Uint32(b0: int, b1: int, b2: int, b3: int): int {
    b0 * 0x100_0000 + b1 * 0x1_0000 + b2 * 0x100 + b3
  }

  /** The code as a number: offset from the low four bits of the last octet, 31 bits from there,
      reduced to six digits. */
  function Truncate(hash: seq<Octet>): nat
    requires |hash| == 20
  {
    var offset := hash[19] % 16;
    Uint32(hash[offset], hash[offset + 1], hash[offset + 2], hash[offset + 3]) % 0x8000_0000 % 1_000_000
  }

  /** RFC 4226 section 5.3, in its own terms: P is four octets at the offset, the top bit of the
      first is dropped, and the number is taken modulo 10^6. */
  lemma TruncateMeetsRfc4226(hash: seq<Octet>)
    requires |hash| == 20
    ensures var o := hash[19] % 16;
            && o + 3 < 20
            && Truncate(hash) == Uint32(hash[o] % 128, hash[o + 1], hash[o + 2], hash[o + 3]) % 1_000_000
            && Truncate(hash) < 1_000_000
  {
    var o := hash[19] % 16;
    DropTopBit(hash[o], hash[o + 1], hash[o + 2], hash[o + 3]);
  }

  lemma DropTopBit(b0: int, b1: int, b2: int, b3: int)
    requires 0 <= b0 < 256 && 0 <= b1 < 256 && 0 <= b2 < 256 && 0 <= b3 < 256
    ensures Uint32(b0, b1, b2, b3) % 0x8000_0000 == Uint32(b0 % 128, b1, b2, b3)
  {
    TopAndRest(b0 / 128, b0 % 128, b1, b2, b3);
  }

  lemma TopAndRest(top: int, b0: int, b1: int, b2: int, b3: int)
    requires 0 <= top <= 1 && 0 <= b0 < 128 && 0 <= b1 < 256 && 0 <= b2 < 256 && 0 <= b3 < 256
    ensures Uint32(128 * top + b0, b1, b2, b3) % 0x8000_0000 == Uint32(b0, b1, b2, b3)
  {
    Small(Uint32(b0, b1, b2, b3), top);
  }

  lemma Small(low: int, top: int)
    requires 0 <= low < 0x8000_0000 && 0 <= top <= 1
    ensures (0x8000_0000 * top + low) % 0x8000_0000 == low
  {
  }

  function Digit(n: nat): char
    requires n < 10
  {
    "0123456789"[n]
  }

  function PowerOfTen(k: nat): nat {
    if k == 0 then 1 else 10 * PowerOfTen(k - 1)
  }

  /** The last `width` decimal digits, with leading zeros. */
  function Digits(n: nat, width: nat): (s: string)
    ensures |s| == width
  {
    if width == 0 then [] else Digits(n / 10, width - 1) + [Digit(n % 10)]
  }

  /** "%06d" */
  function SixDigits(n: nat): string {
    Digits(n, 6)
  }

  function Value(s: string): nat {
    if s == [] then 0 else 10 * Value(s[..|s| - 1]) + (if '0' <= s[|s| - 1] <= '9' then (s[|s| - 1] - '0') as nat
      else 0)
  }

  lemma {:induction false} DigitsReadBack(n: nat, width: nat)
    requires n < PowerOfTen(width)
    ensures Value(Digits(n, width)) == n
  {
    if width > 0 {
      DigitsReadBack(n / 10, width - 1);
      var s := Digits(n, width);
      assert s[..|s| - 1] == Digits(n / 10, width - 1);
      DigitValue(n % 10);
    }
  }

  lemma DigitValue(d: nat)
    requires d < 10
    ensures '0' <= Digit(d) <= '9' && (Digit(d) - '0') as nat == d
  {
    var digits := "0123456789";
    assert digits[0] == '0' && digits[1] == '1' && digits[2] == '2' && digits[3] == '3' && digits[4] == '4';
    assert digits[5] == '5' && digits[6] == '6' && digits[7] == '7' && digits[8] == '8' && digits[9] == '9';
  }

  /** A code has six digits that read back as its number, so different numbers print differently. */
  lemma SixDigitsReadBack(n: nat)
    requires n < 1_000_000
    ensures |SixDigits(n)| == 6 && Value(SixDigits(n)) == n
  {
    assert PowerOfTen(6) == 1_000_000;
    DigitsReadBack(n, 6);
  }

  function CodeAt(h: Hasher, secret: string, step: nat): string
    requires |h.mac(secret, step)| == 20
  {
    if !h.decodable(secret) then "" else SixDigits(Truncate(h.mac(secret, step)))
  }

  function Generate(h: Hasher, secret: string, now: nat): string
    requires |h.mac(secret, StepOf(now))| == 20
  {
    CodeAt(h, secret, StepOf(now))
  }

  /** The clock is read five times in one call: for the three windows, for the age of the last
      use, and for the code that is compared with it. */
  datatype Readings = Readings(first: nat, second: nat, third: nat, since: nat, last: nat)

  ghost predicate Ordered(c: Readings) {
    STEP * SECOND <= c.first <= c.second <= c.third <= c.since <= c.last
  }

  /** Accepts the code of the current, the previous or the next step, each as of its own reading. */
  ghost predicate Validate(h: Hasher, secret: string, code: string, c: Readings)
    requires Sha1Sized(h) && Ordered(c)
  {
    || Generate(h, secret, c.first) == code
    || Generate(h, secret, c.second - STEP * SECOND) == code
    || Generate(h, secret, c.third + STEP * SECOND) == code
  }

  /** Thirty seconds move the step by exactly one. */
  lemma StepShift(now: nat)
    ensures StepOf(now + STEP * SECOND) == StepOf(now) + 1
  {
  }

  lemma StepMonotone(a: nat, b: nat)
    requires a <= b
    ensures StepOf(a) <= StepOf(b)
  {
  }

  /** The steps whose code a call accepts, k being the step at its first reading. A call within
      one step accepts three adjacent ones. If the next step begins before the second reading it
      skips that step: of k - 1 .. k + 2 it accepts only k and k + 2; if it begins between the
      second and the third, k - 1, k and k + 2. */
  ghost predicate AcceptedStep(c: Readings, step: nat) {
    var k := StepOf(c.first);
    if StepOf(c.third) == k then k - 1 <= step <= k + 1
    else if StepOf(c.second) == k then step == k - 1 || step == k || step == k + 2
    else step == k || step == k + 2
  }

  lemma AcceptedStepsAre(c: Readings, step: nat)
    requires Ordered(c) && c.third - c.first < STEP * SECOND
    ensures AcceptedStep(c, step)
      <==> step == StepOf(c.first) || step == StepOf(c.second - STEP * SECOND)
           || step == StepOf(c.third + STEP * SECOND)
  {
    StepShift(c.second - STEP * SECOND);
    StepShift(c.third);
    StepsWithin(c);
  }

  /** Acceptance means exactly the code of one of those steps, for every call that takes less
      than thirty seconds. */
  lemma ValidateIsThreeSteps(h: Hasher, secret: string, code: string, c: Readings)
    requires Sha1Sized(h) && Ordered(c) && c.third - c.first < STEP * SECOND
    ensures Validate(h, secret, code, c)
      <==> exists step: nat :: AcceptedStep(c, step) && CodeAt(h, secret, step) == code
  {
    var k1, k2, k3 := StepOf(c.first), StepOf(c.second - STEP * SECOND), StepOf(c.third + STEP * SECOND);
    forall step: nat ensures AcceptedStep(c, step) <==> step == k1 || step == k2 || step == k3 {
      AcceptedStepsAre(c, step);
    }
    if Validate(h, secret, code, c) {
      var step := if CodeAt(h, secret, k1) == code then k1 else if CodeAt(h, secret, k2) == code then k2 else k3;
      assert AcceptedStep(c, step) && CodeAt(h, secret, step) == code;
    }
  }

  lemma StepsWithin(c: Readings)
    requires Ordered(c) && c.third - c.first < STEP * SECOND
    ensures 1 <= StepOf(c.first) <= StepOf(c.second) <= StepOf(c.third) <= StepOf(c.first) + 1
  {
    StepMonotone(STEP * SECOND, c.first);
    StepMonotone(c.first, c.second);
    StepMonotone(c.second, c.third);
    StepMonotone(c.third, c.first + STEP * SECOND);
    StepShift(c.first);
  }

  /** The codes of the four steps around k differ. */
  ghost predicate DistinctNear(h: Hasher, secret: string, k: nat)
    requires Sha1Sized(h)
  {
    forall i: nat, j: nat :: k - 1 <= i < j <= k + 2 ==> CodeAt(h, secret, i) != CodeAt(h, secret, j)
  }

  /** Clock skew: a code generated up to thirty seconds from the first reading is accepted if the
      whole check falls into one step. Otherwise, the codes around it being distinct, exactly if
      it is the code of the step in which the check began, or of the one before and the next step
      did not begin before the second reading. */
  lemma SkewTolerated(h: Hasher, secret: string, at: nat, c: Readings)
    requires Sha1Sized(h) && Ordered(c) && c.third - c.first < STEP * SECOND
    requires c.first <= at + STEP * SECOND && at <= c.first + STEP * SECOND
    ensures StepOf(c.third) == StepOf(c.first) ==> Validate(h, secret, Generate(h, secret, at), c)
    ensures StepOf(c.third) != StepOf(c.first) && DistinctNear(h, secret, StepOf(c.first)) ==>
      (Validate(h, secret, Generate(h, secret, at), c)
       <==> StepOf(at) == StepOf(c.first) || (StepOf(at) == StepOf(c.first) - 1 && StepOf(c.second) == StepOf(c.first)))
  {
    ValidateIsThreeSteps(h, secret, Generate(h, secret, at), c);
    StepsWithin(c);
    StepMonotone(at, c.first + STEP * SECOND);
    StepMonotone(c.first, at + STEP * SECOND);
    StepShift(c.first);
    StepShift(at);
    assert CodeAt(h, secret, StepOf(at)) == Generate(h, secret, at);
  }

  /** A hash that shows the low octet of the counter. */
  function CounterHash(counter: nat): (hash: seq<Octet>)
    ensures |hash| == 20
  {
    [0, 0, 0, counter % 256, 0, 0, 0, 0, 0, 0, 0, 0, 0, 0, 0, 0, 0, 0, 0, 0]
  }

  lemma CounterHashShows(counter: nat)
    requires counter < 256
    ensures Truncate(CounterHash(counter)) == counter
  {
    var hash := CounterHash(counter);
    assert hash[19] % 16 == 0;
    assert hash[0] == 0 && hash[1] == 0 && hash[2] == 0 && hash[3] == counter;
    SmallCode(counter);
  }

  lemma SmallCode(b: nat)
    requires b < 256
    ensures Uint32(0, 0, 0, b) % 0x8000_0000 % 1_000_000 == b
  {
  }

  function CounterHasher(): Hasher {
    Hasher(_ => true, (secret, counter) => CounterHash(counter))
  }

  lemma CounterCode(step: nat)
    requires step < 256
    ensures Value(CodeAt(CounterHasher(), "", step)) == step
  {
    CounterHashShows(step);
    SixDigitsReadBack(step);
  }

  lemma CounterCodesDiffer(k: nat)
    requires k + 2 < 256
    ensures DistinctNear(CounterHasher(), "", k)
  {
    forall i: nat, j: nat | k - 1 <= i < j <= k + 2
      ensures CodeAt(CounterHasher(), "", i) != CodeAt(CounterHasher(), "", j)
    {
      CounterCode(i);
      CounterCode(j);
    }
  }

  /** With this hasher, a check in which a step begins before the third reading refuses the code
      of that step, generated while the check runs. */
  lemma StraddlingCheckRefuses(c: Readings, at: nat)
    requires Ordered(c) && c.third - c.first < STEP * SECOND && StepOf(c.first) + 2 < 256
    requires c.first <= at <= c.third && StepOf(c.first) < StepOf(at)
    ensures !Validate(CounterHasher(), "", Generate(CounterHasher(), "", at), c)
  {
    CounterCodesDiffer(StepOf(c.first));
    StepMonotone(at, c.third);
    SkewTolerated(CounterHasher(), "", at, c);
  }

  /** Such checks exist: begun a second before the step, with the other readings a second later. */
  lemma ChecksStraddle()
    ensures var c := Readings(59 * SECOND, 60 * SECOND, 60 * SECOND, 60 * SECOND, 60 * SECOND);
            Ordered(c) && c.third - c.first == SECOND && StepOf(c.first) == 1 && StepOf(c.third) == 2
  {
  }

  /** A secret that does not decode has the empty code at all times, so only that is accepted; any
      other secret has codes of six digits. */
  lemma UndecodableSecret(h: Hasher, secret: string, code: string, c: Readings, step: nat)
    requires Sha1Sized(h) && Ordered(c)
    ensures !h.decodable(secret) ==> (Validate(h, secret, code, c) <==> code == "")
    ensures h.decodable(secret) ==> |CodeAt(h, secret, step)| == 6
    ensures h.decodable(secret) && code == "" ==> !Validate(h, secret, code, c)
  {
  }

  // ---------- Verification and replay ----------

  /** The stored part of a user's second factor. */
  datatype TotpRow = TotpRow(secret: string, isVerified: bool, lastUsedAt: Option<nat>)

  type TotpTable = map<int, TotpRow>

  type Request = nat

  /** A request: who, which code, and whether it completes the set-up. */
  datatype Attempt = Attempt(user: int, code: string, markAsVerified: bool)

  /** Where a request is: it has read its user's row, or has passed its checks. It works with the
      row as it read it, which may be out of date by then. */
  datatype Phase =
    | Loaded(attempt: Attempt, row: TotpRow, at: nat)
    | Checked(attempt: Attempt, row: TotpRow, clock: Readings)

  datatype State = State(rows: TotpTable, inFlight: map<Request, Phase>)

  /** The row is read, then the clock, then the row is updated, without a transaction. Other
      requests may do anything in between; `Decide` stands where the last reading is taken. */
  datatype Event =
    | Read(r: Request, attempt: Attempt, now: nat, readFails: bool)
    | Decide(r: Request, clock: Readings)
    | Commit(r: Request, now: nat, updateFails: bool)

  datatype Outcome = Accepted | NotSetUp | ReadFailed | InvalidCode | AlreadyUsed | UpdateFailed

  /** A current code accepted within the last thirty seconds is refused. */
  ghost predicate Replayed(h: Hasher, row: TotpRow, code: string, c: Readings)
    requires Sha1Sized(h)
  {
    && row.lastUsedAt.Some? && c.since - row.lastUsedAt.value < STEP * SECOND
    && Generate(h, row.secret, c.last) == code
  }

  /** The checks' verdict; `Accepted` lets the request go on to its update. */
  ghost function Verdict(h: Hasher, row: TotpRow, code: string, c: Readings): Outcome
    requires Sha1Sized(h) && Ordered(c)
  {
    if !Validate(h, row.secret, code, c) then InvalidCode
    else if Replayed(h, row, code, c) then AlreadyUsed
    else Accepted
  }

  /** The verdict in full: the code must be one of the three windows', and is refused only if it is
      the current one and some code was accepted less than thirty seconds ago. */
  lemma VerdictExact(h: Hasher, row: TotpRow, code: string, c: Readings)
    requires Sha1Sized(h) && Ordered(c)
    ensures var v := Verdict(h, row, code, c);
            && (v == InvalidCode <==> !Validate(h, row.secret, code, c))
            && (v == AlreadyUsed <==>
                  && Validate(h, row.secret, code, c) && code == CodeAt(h, row.secret, StepOf(c.last))
                  && row.lastUsedAt.Some? && c.since < row.lastUsedAt.value + 30_000_000_000)
            && v in {Accepted, InvalidCode, AlreadyUsed}
  {
  }

  ghost predicate Timed(ev: Event) {
    ev.Decide? ==> Ordered(ev.clock)
  }

  /** One event; an event that does not apply changes nothing. */
  ghost function Next(h: Hasher, s: State, ev: Event): State
    requires Sha1Sized(h) && Timed(ev)
  {
    match ev
    case Read(r, a, now, readFails) =>
      if r in s.inFlight || readFails || a.user !in s.rows then s
      else s.(inFlight := s.inFlight[r := Loaded(a, s.rows[a.user], now)])
    case Decide(r, c) =>
      if r !in s.inFlight || !s.inFlight[r].Loaded? || c.first < s.inFlight[r].at then s
      else
        var p := s.inFlight[r];
        if Verdict(h, p.row, p.attempt.code, c) != Accepted then s.(inFlight := s.inFlight - {r})
        else s.(inFlight := s.inFlight[r := Checked(p.attempt, p.row, c)])
    case Commit(r, now, updateFails) =>
      if r !in s.inFlight || !s.inFlight[r].Checked? then s
      else
        var done := s.(inFlight := s.inFlight - {r});
        if updateFails then done else done.(rows := Updated(s.rows, s.inFlight[r], now))
  }

  function Updated(rows: TotpTable, p: Phase, now: nat): TotpTable {
    if p.attempt.user !in rows then rows
    else
      var row := rows[p.attempt.user];
      var verified := row.isVerified || (p.attempt.markAsVerified && !p.row.isVerified);
      rows[p.attempt.user := row.(lastUsedAt := Some(now), isVerified := verified)]
  }

  class MfaService {
    const hasher: Hasher
    var rows: TotpTable
    ghost var inFlight: map<Request, Phase>

    ghost function Snapshot(): State
      reads this
    {
      State(rows, inFlight)
    }

    constructor (hasher: Hasher)
      ensures this.hasher == hasher && rows == map[] && inFlight == map[]
    {
      this.hasher, rows, inFlight := hasher, map[], map[];
    }

    /** One call that no other overlaps: its three events, as far as it gets. */
    method VerifyTotp(ghost r: Request, a: Attempt, ghost readAt: nat, readFails: bool, clock: Readings,
                      commitAt: nat, updateFails: bool)
      returns (o: Outcome)
      requires Sha1Sized(hasher) && Ordered(clock) && readAt <= clock.first && r !in inFlight
      modifies this
      ensures var read := Next(hasher, old(Snapshot()), Read(r, a, readAt, readFails));
              var decided := Next(hasher, read, Decide(r, clock));
              Snapshot() == Next(hasher, decided, Commit(r, commitAt, updateFails))
      ensures readFails ==> o == ReadFailed
      ensures !readFails && a.user !in old(rows) ==> o == NotSetUp
      ensures o == Accepted ==> a.user in old(rows)
      ensures !readFails && a.user in old(rows) ==>
        var verdict := Verdict(hasher, old(rows)[a.user], a.code, clock);
        o == if verdict == Accepted && updateFails then UpdateFailed else verdict
      ensures o != Accepted ==> rows == old(rows)
      ensures o == Accepted ==>
        var row := old(rows)[a.user];
        rows == old(rows)[a.user := TotpRow(row.secret, row.isVerified || a.markAsVerified, Some(commitAt))]
      ensures inFlight == old(inFlight)
    {
      if readFails {
        return ReadFailed;
      }
      if a.user !in rows {
        return NotSetUp;
      }
      var row := rows[a.user];
      o := CheckCode(row, a.code, clock);
      assert inFlight[r := Loaded(a, row, readAt)] - {r} == inFlight;
      if o != Accepted { return o; }
      assert inFlight[r := Loaded(a, row, readAt)][r := Checked(a, row, clock)] - {r} == inFlight;
      if updateFails { return UpdateFailed; }
      var updated := row.(lastUsedAt := Some(commitAt));
      if a.markAsVerified && !row.isVerified { updated := updated.(isVerified := true); }
      rows := rows[a.user := updated];
    }

    /** Checks the three windows, then refuses a current code accepted within thirty seconds. */
    method CheckCode(row: TotpRow, code: string, clock: Readings) returns (o: Outcome)
      requires Sha1Sized(hasher) && Ordered(clock)
      ensures o == Verdict(hasher, row, code, clock)
    {
      var current := Generate(hasher, row.secret, clock.first);
      var previous := Generate(hasher, row.secret, clock.second - STEP * SECOND);
      var following := Generate(hasher, row.secret, clock.third + STEP * SECOND);
      if current != code && previous != code && following != code { return InvalidCode; }
      if row.lastUsedAt.Some? && clock.since - row.lastUsedAt.value < STEP * SECOND {
        var now := Generate(hasher, row.secret, clock.last);
        if now == code { return AlreadyUsed; }
      }
      return Accepted;
    }
  }

  // ---------- How often a code is accepted ----------

  function TimeOf(ev: Event): nat {
    if ev.Decide? then ev.clock.last else ev.now
  }

  /** The clock does not run backwards along the run. The earlier readings of a check may lie
      before events of other requests. */
  ghost predicate Ascending(evs: seq<Event>, from: nat) {
    evs == [] || (from <= TimeOf(evs[0]) && Timed(evs[0]) && Ascending(evs[1..], TimeOf(evs[0])))
  }

  /** A request past its checks with the code that was current when they ended, in this step. */
  ghost predicate HoldsCode(h: Hasher, p: Phase, user: int, step: nat)
    requires Sha1Sized(h)
  {
    && p.Checked? && p.attempt.user == user
    && StepOf(p.clock.last) == step && p.attempt.code == CodeAt(h, p.row.secret, step)
  }

  /** A request that has read its row, with the code of this step, which has not ended by `from`;
      the row it read shows no use in this step or later. */
  ghost predicate MayHoldCode(h: Hasher, p: Phase, from: nat, user: int, step: nat)
    requires Sha1Sized(h)
  {
    && p.Loaded? && p.attempt.user == user && p.attempt.code == CodeAt(h, p.row.secret, step)
    && step >= 1 && StepOf(from) <= step
    && (p.row.lastUsedAt.Some? ==> StepOf(p.row.lastUsedAt.value) < step)
  }

  /** The event accepts the user's code of that step. */
  ghost predicate UsesCode(h: Hasher, s: State, ev: Event, user: int, step: nat)
    requires Sha1Sized(h)
  {
    ev.Commit? && !ev.updateFails && ev.r in s.inFlight && HoldsCode(h, s.inFlight[ev.r], user, step)
  }

  /** How often a run accepts a user's current code of one time step. */
  ghost function Uses(h: Hasher, s: State, evs: seq<Event>, from: nat, user: int, step: nat): nat
    requires Sha1Sized(h) && Ascending(evs, from)
    decreases |evs|
  {
    if evs == [] then 0
    else
      (if UsesCode(h, s, evs[0], user, step) then 1 else 0)
      + Uses(h, Next(h, s, evs[0]), evs[1..], TimeOf(evs[0]), user, step)
  }

  /** Some code of the user was accepted in this step or later. */
  ghost predicate Spent(s: State, from: nat, user: int, step: nat) {
    && user in s.rows && s.rows[user].lastUsedAt.Some?
    && s.rows[user].lastUsedAt.value <= from && StepOf(s.rows[user].lastUsedAt.value) >= step
  }

  /** The requests that could still use the code: past their checks with it, or past reading a row
      that does not yet show the use. */
  ghost function Rivals(h: Hasher, s: State, from: nat, user: int, step: nat): set<Request>
    requires Sha1Sized(h)
  {
    set r | r in s.inFlight
            && (HoldsCode(h, s.inFlight[r], user, step) || MayHoldCode(h, s.inFlight[r], from, user, step))
  }

  /** What is in flight happened before. */
  ghost predicate Timely(s: State, from: nat) {
    forall r :: r in s.inFlight ==>
      (if s.inFlight[r].Loaded? then s.inFlight[r].at else s.inFlight[r].clock.last) <= from
  }

  /** Readings of the same step are less than thirty seconds apart. */
  lemma SameStepIsClose(a: nat, b: nat)
    requires a <= b && StepOf(a) >= StepOf(b)
    ensures b - a < STEP * SECOND
  {
    assert a / SECOND >= b / SECOND / STEP * STEP;
  }

  lemma FarIsLaterStep(a: nat, b: nat)
    requires b - a >= STEP * SECOND
    ensures StepOf(a) < StepOf(b)
  {
    StepShift(a);
    StepMonotone(a + STEP * SECOND, b);
  }

  lemma TimelyStays(h: Hasher, s: State, ev: Event, from: nat)
    requires Sha1Sized(h) && Timed(ev) && from <= TimeOf(ev) && Timely(s, from)
    ensures Timely(Next(h, s, ev), TimeOf(ev))
  {
  }

  /** Only a rival can come to hold the code. */
  lemma DecideNeedsRival(h: Hasher, p: Phase, c: Readings, from: nat, user: int, step: nat)
    requires Sha1Sized(h) && Ordered(c) && p.Loaded? && from <= c.last
    requires Verdict(h, p.row, p.attempt.code, c) == Accepted
    requires HoldsCode(h, Checked(p.attempt, p.row, c), user, step)
    ensures MayHoldCode(h, p, from, user, step)
  {
    StepMonotone(from, c.last);
    StepMonotone(STEP * SECOND, c.last);
    if p.row.lastUsedAt.Some? {
      FarIsLaterStep(p.row.lastUsedAt.value, c.since);
      StepMonotone(c.since, c.last);
    }
  }

  /** Once a code is spent it stays spent; nobody joins its rivals, and a commit leaves them. */
  lemma SpentStays(h: Hasher, s: State, ev: Event, from: nat, user: int, step: nat)
    requires Sha1Sized(h) && Timed(ev) && from <= TimeOf(ev) && Spent(s, from, user, step)
    ensures Spent(Next(h, s, ev), TimeOf(ev), user, step)
    ensures Rivals(h, Next(h, s, ev), TimeOf(ev), user, step) <= Rivals(h, s, from, user, step)
    ensures ev.Commit? && ev.r in s.inFlight && s.inFlight[ev.r].Checked? ==> ev.r !in Next(h, s, ev).inFlight
  {
    StepMonotone(from, TimeOf(ev));
    StepMonotone(s.rows[user].lastUsedAt.value, TimeOf(ev));
    if ev.Decide? && ev.r in s.inFlight && s.inFlight[ev.r].Loaded?
       && Verdict(h, s.inFlight[ev.r].row, s.inFlight[ev.r].attempt.code, ev.clock) == Accepted
       && HoldsCode(h, Checked(s.inFlight[ev.r].attempt, s.inFlight[ev.r].row, ev.clock), user, step) {
      DecideNeedsRival(h, s.inFlight[ev.r], ev.clock, from, user, step);
    }
  }

  /** After the first use of a code, a run accepts it at most once more for every rival. */
  lemma {:induction false} SpentUses(h: Hasher, s: State, evs: seq<Event>, from: nat, user: int, step: nat)
    requires Sha1Sized(h) && Ascending(evs, from) && Spent(s, from, user, step)
    ensures Uses(h, s, evs, from, user, step) <= |Rivals(h, s, from, user, step)|
    decreases |evs|
  {
    if evs != [] {
      var ev, after := evs[0], Next(h, s, evs[0]);
      var old', new' := Rivals(h, s, from, user, step), Rivals(h, after, TimeOf(ev), user, step);
      SpentStays(h, s, ev, from, user, step);
      SpentUses(h, after, evs[1..], TimeOf(ev), user, step);
      if UsesCode(h, s, ev, user, step) {
        Fewer(new', old' - {ev.r});
      } else {
        Fewer(new', old');
      }
    }
  }

  lemma Fewer<T>(a: set<T>, b: set<T>)
    requires a <= b
    ensures |a| <= |b|
  {
    assert b == a + (b - a);
  }

  // ---------- Every rival can use the code ----------

  /** The last instant of a time step. */
  function EndOf(step: nat): nat {
    (step + 1) * STEP * SECOND - 1
  }

  lemma EndIsLast(step: nat, t: nat)
    ensures StepOf(EndOf(step)) == step
    ensures StepOf(t) <= step ==> t <= EndOf(step)
    ensures StepOf(t) < step ==> EndOf(step) - t >= STEP * SECOND
  {
    StepBounds(EndOf(step), step);
    assert t / SECOND < (t / SECOND / STEP + 1) * STEP;
  }

  lemma StepBounds(t: nat, step: nat)
    requires step * STEP * SECOND <= t < (step + 1) * STEP * SECOND
    ensures StepOf(t) == step
  {
    assert step * STEP <= t / SECOND < (step + 1) * STEP;
  }

  /** All readings at the last instant of the step. */
  function LateClock(step: nat): Readings {
    Readings(EndOf(step), EndOf(step), EndOf(step), EndOf(step), EndOf(step))
  }

  /** A request that may hold the code passes its checks at the end of the step. */
  lemma LateCheckPasses(h: Hasher, p: Phase, from: nat, user: int, step: nat)
    requires Sha1Sized(h) && MayHoldCode(h, p, from, user, step) && p.at <= from
    ensures Ordered(LateClock(step)) && from <= EndOf(step) && p.at <= EndOf(step)
    ensures Verdict(h, p.row, p.attempt.code, LateClock(step)) == Accepted
    ensures HoldsCode(h, Checked(p.attempt, p.row, LateClock(step)), user, step)
  {
    EndIsLast(step, from);
    if p.row.lastUsedAt.Some? {
      EndIsLast(step, p.row.lastUsedAt.value);
    }
  }

  /** When the rivals' remaining events happen: now, if all are past their checks; otherwise at
      the end of the step, which is still to come. */
  function When(from: nat, step: nat): nat {
    if StepOf(from) <= step then EndOf(step) else from
  }

  /** A run that uses the code once and leads to `after` at time `at`. */
  ghost predicate UsesOnce(h: Hasher, s: State, from: nat, evs: seq<Event>, after: State, at: nat, user: int, step: nat)
    requires Sha1Sized(h)
  {
    forall more :: Ascending(more, at) ==>
      && Ascending(evs + more, from)
      && Uses(h, s, evs + more, from, user, step) == 1 + Uses(h, after, more, at, user, step)
  }

  lemma CommitUsesOnce(h: Hasher, s: State, from: nat, at: nat, user: int, step: nat, r: Request)
    requires Sha1Sized(h) && from <= at && UsesCode(h, s, Commit(r, at, false), user, step)
    ensures UsesOnce(h, s, from, [Commit(r, at, false)], Next(h, s, Commit(r, at, false)), at, user, step)
  {
    forall more | Ascending(more, at)
      ensures Ascending([Commit(r, at, false)] + more, from)
      ensures Uses(h, s, [Commit(r, at, false)] + more, from, user, step)
              == 1 + Uses(h, Next(h, s, Commit(r, at, false)), more, at, user, step)
    {
      assert ([Commit(r, at, false)] + more)[1..] == more;
    }
  }

  lemma DecideUsesNot(h: Hasher, s: State, from: nat, evs: seq<Event>, after: State, at: nat, user: int, step: nat,
                      decide: Event)
    requires Sha1Sized(h) && decide.Decide? && Timed(decide) && from <= TimeOf(decide)
    requires UsesOnce(h, Next(h, s, decide), TimeOf(decide), evs, after, at, user, step)
    ensures UsesOnce(h, s, from, [decide] + evs, after, at, user, step)
  {
    forall more | Ascending(more, at)
      ensures Ascending([decide] + evs + more, from)
      ensures Uses(h, s, [decide] + evs + more, from, user, step) == 1 + Uses(h, after, more, at, user, step)
    {
      assert [decide] + evs + more == [decide] + (evs + more);
      assert ([decide] + (evs + more))[1..] == evs + more;
    }
  }

  /** A rival past its checks commits; the others stay rivals. */
  lemma CommitLeavesRivals(h: Hasher, s: State, at: nat, user: int, step: nat, r: Request)
    requires Sha1Sized(h) && Spent(s, at, user, step) && Timely(s, at)
    requires r in s.inFlight && HoldsCode(h, s.inFlight[r], user, step)
    ensures var after := Next(h, s, Commit(r, at, false));
            && Spent(after, at, user, step) && Timely(after, at)
            && Rivals(h, after, at, user, step) == Rivals(h, s, at, user, step) - {r}
  {
    StepMonotone(s.rows[user].lastUsedAt.value, at);
  }

  /** By the time of the last events nobody has dropped out. */
  lemma RivalsWait(h: Hasher, s: State, from: nat, user: int, step: nat)
    requires Sha1Sized(h)
    ensures from <= When(from, step) && When(When(from, step), step) == When(from, step)
    ensures Rivals(h, s, When(from, step), user, step) == Rivals(h, s, from, user, step)
  {
    EndIsLast(step, from);
    EndIsLast(step, When(from, step));
  }

  /** A rival past reading passes its checks at the end of the step and stays a rival. */
  lemma DecideKeepsRivals(h: Hasher, s: State, at: nat, user: int, step: nat, r: Request)
    requires Sha1Sized(h) && Spent(s, at, user, step) && Timely(s, at) && at == EndOf(step)
    requires r in s.inFlight && MayHoldCode(h, s.inFlight[r], at, user, step)
    ensures Ordered(LateClock(step))
    ensures var after := Next(h, s, Decide(r, LateClock(step)));
            && Spent(after, at, user, step) && Timely(after, at)
            && r in after.inFlight && HoldsCode(h, after.inFlight[r], user, step)
            && Rivals(h, after, at, user, step) == Rivals(h, s, at, user, step)
  {
    LateCheckPasses(h, s.inFlight[r], at, user, step);
  }

  /** One rival goes on and uses the code; the others stay rivals. */
  lemma OneRivalUses(h: Hasher, s: State, from: nat, user: int, step: nat, r: Request)
    returns (evs: seq<Event>, after: State)
    requires Sha1Sized(h) && Spent(s, from, user, step) && Timely(s, from) && r in Rivals(h, s, from, user, step)
    ensures var at := When(from, step);
            && Spent(after, at, user, step) && Timely(after, at) && When(at, step) == at
            && Rivals(h, after, at, user, step) == Rivals(h, s, from, user, step) - {r}
            && UsesOnce(h, s, from, evs, after, at, user, step)
  {
    var at := When(from, step);
    RivalsWait(h, s, from, user, step);
    if s.inFlight[r].Checked? {
      evs, after := [Commit(r, at, false)], Next(h, s, Commit(r, at, false));
      CommitUsesOnce(h, s, from, at, user, step, r);
      CommitLeavesRivals(h, s, at, user, step, r);
    } else {
      DecideKeepsRivals(h, s, at, user, step, r);
      var decide := Decide(r, LateClock(step));
      var mid := Next(h, s, decide);
      after := Next(h, mid, Commit(r, at, false));
      CommitUsesOnce(h, mid, at, at, user, step, r);
      CommitLeavesRivals(h, mid, at, user, step, r);
      DecideUsesNot(h, s, from, [Commit(r, at, false)], after, at, user, step, decide);
      evs := [decide] + [Commit(r, at, false)];
    }
  }

  /** All of them can, one after the other. */
  lemma {:induction false} RivalsUse(h: Hasher, s: State, from: nat, user: int, step: nat) returns (evs: seq<Event>)
    requires Sha1Sized(h) && Spent(s, from, user, step) && Timely(s, from)
    ensures Ascending(evs, from) && Uses(h, s, evs, from, user, step) == |Rivals(h, s, from, user, step)|
    decreases |Rivals(h, s, from, user, step)|
  {
    var rivals := Rivals(h, s, from, user, step);
    if rivals == {} {
      evs := [];
    } else {
      var r :| r in rivals;
      var first, after := OneRivalUses(h, s, from, user, step, r);
      var rest := RivalsUse(h, after, When(from, step), user, step);
      evs := first + rest;
    }
  }

  /** The bound is exact: after the first use of a code, some run accepts it again if and only if
      there is a rival, and as many times as there are rivals. */
  lemma UsedAgainIffRival(h: Hasher, s: State, from: nat, user: int, step: nat)
    requires Sha1Sized(h) && Spent(s, from, user, step) && Timely(s, from)
    ensures exists evs :: Ascending(evs, from)
                          && Uses(h, s, evs, from, user, step) == |Rivals(h, s, from, user, step)|
    ensures (exists evs :: Ascending(evs, from) && Uses(h, s, evs, from, user, step) > 0)
            <==> Rivals(h, s, from, user, step) != {}
  {
    var evs := RivalsUse(h, s, from, user, step);
    if more :| Ascending(more, from) && Uses(h, s, more, from, user, step) > 0 {
      SpentUses(h, s, more, from, user, step);
    }
  }

  // ---------- Calls that do not overlap ----------

  /** No request reads its row while another is in flight. */
  ghost predicate NeverOverlaps(h: Hasher, s: State, evs: seq<Event>, from: nat)
    requires Sha1Sized(h) && Ascending(evs, from)
    decreases |evs|
  {
    || evs == []
    || ((evs[0].Read? ==> s.inFlight.Keys == {}) && NeverOverlaps(h, Next(h, s, evs[0]), evs[1..], TimeOf(evs[0])))
  }

  /** Over every run in which calls do not overlap, by any users, with any codes and failures:
      during a time step a user's code of that step is accepted at most once. */
  lemma {:induction false} CurrentCodeOncePerStep(h: Hasher, s: State, evs: seq<Event>, from: nat, user: int, step: nat)
    requires Sha1Sized(h) && Ascending(evs, from) && NeverOverlaps(h, s, evs, from)
    requires |s.inFlight.Keys| <= 1 && Timely(s, from)
    requires forall r :: r in s.inFlight ==> s.inFlight[r].attempt.user in s.rows
    ensures Uses(h, s, evs, from, user, step) <= 1
    decreases |evs|
  {
    if evs != [] {
      var ev, after := evs[0], Next(h, s, evs[0]);
      OneInFlight(h, s, ev);
      TimelyStays(h, s, ev, from);
      if UsesCode(h, s, ev, user, step) {
        StepMonotone(s.inFlight[ev.r].clock.last, ev.now);
        assert Rivals(h, after, TimeOf(ev), user, step) == {};
        SpentUses(h, after, evs[1..], TimeOf(ev), user, step);
      } else {
        CurrentCodeOncePerStep(h, after, evs[1..], TimeOf(ev), user, step);
      }
    }
  }

  lemma OneInFlight(h: Hasher, s: State, ev: Event)
    requires Sha1Sized(h) && Timed(ev) && |s.inFlight.Keys| <= 1 && (ev.Read? ==> s.inFlight.Keys == {})
    ensures |Next(h, s, ev).inFlight.Keys| <= 1
    ensures ev.Commit? && ev.r in s.inFlight && s.inFlight[ev.r].Checked? ==> Next(h, s, ev).inFlight.Keys == {}
  {
    var after := Next(h, s, ev);
    Fewer(after.inFlight.Keys, if ev.Read? then {ev.r} else s.inFlight.Keys);
    if ev.Commit? && ev.r in s.inFlight && s.inFlight[ev.r].Checked? {
      assert after.inFlight.Keys == s.inFlight.Keys - {ev.r};
      assert |after.inFlight.Keys| == 0;
    }
  }

  /** Two calls that overlap: both read the row before either updates it. The second is accepted
      with the same current code although it runs its checks after the first is committed. */
  lemma OverlappingCallsAcceptTwice(h: Hasher, s: State, p: Request, q: Request, a: Attempt, readAt: nat,
                                    early: Readings, late: Readings)
    requires Sha1Sized(h) && Ordered(early) && Ordered(late) && readAt <= early.first && early.last <= late.first
    requires StepOf(early.first) == StepOf(late.last)
    requires p != q && p !in s.inFlight && q !in s.inFlight && a.user in s.rows
    requires s.rows[a.user].lastUsedAt == None && a.code == Generate(h, s.rows[a.user].secret, late.last)
    ensures var s2 := Next(h, Next(h, s, Read(p, a, readAt, false)), Read(q, a, readAt, false));
            var s3 := Next(h, s2, Decide(p, early));
            var s4 := Next(h, s3, Commit(p, early.last, false));
            var s5 := Next(h, s4, Decide(q, late));
            && UsesCode(h, s3, Commit(p, early.last, false), a.user, StepOf(late.last))
            && Spent(s4, early.last, a.user, StepOf(late.last)) && s4.inFlight[q].Loaded?
            && UsesCode(h, s5, Commit(q, late.last, false), a.user, StepOf(late.last))
  {
    SameStepThroughout(early, late);
  }

  lemma SameStepThroughout(early: Readings, late: Readings)
    requires Ordered(early) && Ordered(late) && early.last <= late.first && StepOf(early.first) == StepOf(late.last)
    ensures StepOf(early.last) == StepOf(late.first) == StepOf(early.first) == StepOf(late.last)
  {
    StepMonotone(early.first, early.last);
    StepMonotone(early.last, late.first);
    StepMonotone(late.first, late.last);
  }

  /** Exactly when a code that was just accepted passes the checks again: it must still be in the
      window, and thirty seconds must have passed or it must be another step's code. */
  lemma AcceptedAgainIff(h: Hasher, rows: TotpTable, first: Phase, at: nat, clock: Readings)
    requires Sha1Sized(h) && Ordered(clock) && at <= clock.first && first.attempt.user in rows
    ensures var user, code := first.attempt.user, first.attempt.code;
            Verdict(h, Updated(rows, first, at)[user], code, clock) == Accepted
            <==> && Validate(h, rows[user].secret, code, clock)
                 && (clock.since - at >= STEP * SECOND || Generate(h, rows[user].secret, clock.last) != code)
  {
    assert Updated(rows, first, at)[first.attempt.user].secret == rows[first.attempt.user].secret;
  }

  lemma PreviousStep(c: Readings)
    requires Ordered(c) && StepOf(c.first) == StepOf(c.last)
    ensures StepOf(c.second - STEP * SECOND) == StepOf(c.last) - 1
  {
    StepMonotone(c.first, c.second);
    StepMonotone(c.second, c.last);
    StepShift(c.second - STEP * SECOND);
  }

  lemma PreviousIsValid(h: Hasher, secret: string, c: Readings, step: nat)
    requires Sha1Sized(h) && Ordered(c) && StepOf(c.second - STEP * SECOND) == step
    ensures Validate(h, secret, CodeAt(h, secret, step), c)
  {
  }

  /** In particular the code of the previous step can be used again within one step, however the
      first call went, unless it happens to equal the current one. */
  lemma PreviousCodeReplays(h: Hasher, rows: TotpTable, first: Phase, at: nat, clock: Readings)
    requires Sha1Sized(h) && Ordered(clock) && at <= clock.first && first.attempt.user in rows
    requires StepOf(clock.first) == StepOf(clock.last)
    requires var secret := rows[first.attempt.user].secret;
             first.attempt.code == CodeAt(h, secret, StepOf(clock.last) - 1) != CodeAt(h, secret, StepOf(clock.last))
    ensures var user := first.attempt.user;
            Verdict(h, Updated(rows, first, at)[user], first.attempt.code, clock) == Accepted
  {
    PreviousStep(clock);
    PreviousIsValid(h, rows[first.attempt.user].secret, clock, StepOf(clock.last) - 1);
    AcceptedAgainIff(h, rows, first, at, clock);
  }
}
