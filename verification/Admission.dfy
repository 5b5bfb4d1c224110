/**
 Capacity admission: the checks an append goes through, in their order, and the capacity snapshot that reports
 in advance what those checks would say.
 */
module Admission {
  import opened Options

  datatype UnavailableEvidence = AllowLogicalAdmission | RefuseAdmission

  datatype Reserve = Reserve(minimum: nat, resume: nat, unavailable: UnavailableEvidence)

  datatype Capacity = Capacity(
    maxEventBytes: Option<nat>, maxRows: Option<nat>, maxBytes: Option<nat>, reserve: Option<Reserve>)

  /** What the configuration check demands: hysteresis needs room between the two thresholds. */
  predicate ValidCapacity(c: Capacity) {
    c.reserve.Some? ==> c.reserve.value.minimum < c.reserve.value.resume
  }

  datatype Dimension = EventBytes | FilesystemReserve | FilesystemEvidence | PendingRows | PendingBytes

  /** `None` stands for the word "unknown" in the refusal evidence. */
  datatype Refusal = Refusal(dimension: Dimension, limit: nat, current: Option<nat>, attempted: Option<nat>)

  datatype Usage = Usage(rows: nat, bytes: nat)

  /** The hysteresis latch and the last known reading behind it. */
  datatype Latch = Latch(on: bool, lastKnown: Option<nat>)

  // ---------------------------------------------------------------- the enforcer

  function NextLatch(reserve: Reserve, latch: Latch, reading: Option<nat>): Latch {
    if reading.None? then latch
    else if reading.value <= reserve.minimum then Latch(true, reading)
    else if reading.value >= reserve.resume then Latch(false, reading)
    else Latch(latch.on, reading)
  }

  /** Verdict of the filesystem check, given the latch as it stands after the reading was taken in. */
  function ReserveVerdict(reserve: Reserve, latch: Latch, reading: Option<nat>): Option<Refusal> {
    match reading
    case None =>
      if latch.on then Some(Refusal(FilesystemReserve, reserve.resume, latch.lastKnown, latch.lastKnown))
      else if reserve.unavailable.RefuseAdmission? then
        Some(Refusal(FilesystemEvidence, reserve.minimum, None, None))
      else None
    case Some(available) =>
      if !latch.on then None
      else
        var limit := if available <= reserve.minimum then reserve.minimum else reserve.resume;
        Some(Refusal(FilesystemReserve, limit, reading, reading))
  }

  function LogicalVerdict(c: Capacity, usage: Usage, live: bool, bytes: nat): Option<Refusal> {
    if !live then None
    else if c.maxRows.Some? && usage.rows + 1 > c.maxRows.value then
      Some(Refusal(PendingRows, c.maxRows.value, Some(usage.rows), Some(usage.rows + 1)))
    else if c.maxBytes.Some? && usage.bytes + bytes > c.maxBytes.value then
      Some(Refusal(PendingBytes, c.maxBytes.value, Some(usage.bytes), Some(usage.bytes + bytes)))
    else None
  }

  function EventVerdict(c: Capacity, bytes: nat): Option<Refusal> {
    if c.maxEventBytes.Some? && bytes > c.maxEventBytes.value then
      Some(Refusal(EventBytes, c.maxEventBytes.value, Some(0), Some(bytes)))
    else None
  }

  /** The latch after an append: an oversized event is refused before the filesystem is looked at. */
  function LatchAfter(c: Capacity, latch: Latch, reading: Option<nat>, bytes: nat): Latch {
    if EventVerdict(c, bytes).Some? || c.reserve.None? then latch
    else NextLatch(c.reserve.value, latch, reading)
  }

  /** The checks before the transaction: the event's own size, then the filesystem. */
  function EarlyVerdict(c: Capacity, latch: Latch, reading: Option<nat>, bytes: nat): Option<Refusal> {
    if EventVerdict(c, bytes).Some? then EventVerdict(c, bytes)
    else if c.reserve.None? then None
    else ReserveVerdict(c.reserve.value, LatchAfter(c, latch, reading, bytes), reading)
  }

  function Verdict(
    c: Capacity, latch: Latch, reading: Option<nat>, usage: Usage, live: bool, bytes: nat): Option<Refusal>
  {
    var early := EarlyVerdict(c, latch, reading, bytes);
    if early.Some? then early else LogicalVerdict(c, usage, live, bytes)
  }

  // ---------------------------------------------------------------- the observer

  datatype Posture = Open | Refusing | Unknown

  datatype Observation = Observation(posture: Posture, dimension: Option<Dimension>)

  function ObserveReserve(c: Capacity, latch: Latch, reading: Option<nat>): Observation {
    if c.reserve.None? then Observation(Open, None)
    else
      var reserve := c.reserve.value;
      match reading
      case None =>
        if latch.on then Observation(Refusing, Some(FilesystemReserve))
        else if reserve.unavailable.RefuseAdmission? then Observation(Refusing, Some(FilesystemEvidence))
        else Observation(Unknown, Some(FilesystemEvidence))
      case Some(available) =>
        if available <= reserve.minimum || (latch.on && available < reserve.resume) then
          Observation(Refusing, Some(FilesystemReserve))
        else Observation(Open, None)
  }

  function Observe(c: Capacity, latch: Latch, reading: Option<nat>, usage: Usage): Observation {
    var filesystem := ObserveReserve(c, latch, reading);
    if filesystem.posture.Refusing? then filesystem
    else if c.maxRows.Some? && usage.rows >= c.maxRows.value then Observation(Refusing, Some(PendingRows))
    else if c.maxBytes.Some? && usage.bytes >= c.maxBytes.value then Observation(Refusing, Some(PendingBytes))
    else filesystem
  }

  /**
   The observer agrees with the enforcer, both ways. A `Refusing` snapshot means every pending append of at least
   one byte within the event limit is refused, on the dimension the snapshot names; any other snapshot means such
   an append can only be refused for its own bytes, and a one-byte one is accepted.
   */
  lemma ObserverAgreesWithEnforcer(c: Capacity, latch: Latch, reading: Option<nat>, usage: Usage, bytes: nat)
    requires ValidCapacity(c)
    requires bytes >= 1 && (c.maxEventBytes == None || bytes <= c.maxEventBytes.value)
    ensures var seen := Observe(c, latch, reading, usage);
            var verdict := Verdict(c, latch, reading, usage, true, bytes);
            && (seen.posture.Refusing? ==> verdict.Some? && seen.dimension == Some(verdict.value.dimension))
            && (!seen.posture.Refusing? && verdict.Some? ==> verdict.value.dimension.PendingBytes?)
            && (bytes == 1 ==> (verdict.Some? <==> seen.posture.Refusing?))
  {
    // The latch the enforcer decides on is the one the observer works out from the old latch and the reading.
    if c.reserve.Some? && reading.Some? {
      var after := NextLatch(c.reserve.value, latch, reading);
      assert after.on <==> ObserveReserve(c, latch, reading).posture.Refusing?;
    }
  }

  // ---------------------------------------------------------------- hysteresis over histories

  function LatchOver(reserve: Reserve, readings: seq<Option<nat>>): Latch {
    if |readings| == 0 then Latch(false, None)
    else NextLatch(reserve, LatchOver(reserve, readings[..|readings| - 1]), readings[|readings| - 1])
  }

  predicate Low(reserve: Reserve, reading: Option<nat>) {
    reading.Some? && reading.value <= reserve.minimum
  }

  predicate High(reserve: Reserve, reading: Option<nat>) {
    reading.Some? && reading.value >= reserve.resume
  }

  /** The last reading at or outside one of the thresholds was at or below the minimum. */
  ghost predicate LastDecisiveWasLow(reserve: Reserve, readings: seq<Option<nat>>) {
    exists i :: 0 <= i < |readings| && Low(reserve, readings[i]) &&
                forall j | i < j < |readings| :: !High(reserve, readings[j])
  }

  /** After any history of readings, known or not, the latch is on exactly when the last decisive one was low. */
  lemma {:induction false} LatchIsLastDecisive(reserve: Reserve, readings: seq<Option<nat>>)
    requires reserve.minimum < reserve.resume
    ensures LatchOver(reserve, readings).on <==> LastDecisiveWasLow(reserve, readings)
    ensures LatchOver(reserve, readings).on ==> LatchOver(reserve, readings).lastKnown.Some?
  {
    if |readings| > 0 {
      var n := |readings| - 1;
      var front := readings[..n];
      LatchIsLastDecisive(reserve, front);
      if LastDecisiveWasLow(reserve, front) && !High(reserve, readings[n]) {
        var i :| 0 <= i < n && Low(reserve, front[i]) && forall j | i < j < n :: !High(reserve, front[j]);
        assert Low(reserve, readings[i]);
        assert forall j | i < j < n :: readings[j] == front[j];
      }
      if LastDecisiveWasLow(reserve, readings) {
        var i :| 0 <= i < |readings| && Low(reserve, readings[i]) &&
                 forall j | i < j < |readings| :: !High(reserve, readings[j]);
        if i < n {
          assert Low(reserve, front[i]);
          assert forall j | i < j < n :: front[j] == readings[j];
        }
      }
    }
  }

  /**
   Appends are refused on the filesystem exactly when the latch is on, or when the reading is unknown and the
   configuration refuses without evidence; an unknown reading never changes the latch.
   */
  lemma ReserveRefusesExactly(reserve: Reserve, readings: seq<Option<nat>>, reading: Option<nat>)
    requires reserve.minimum < reserve.resume
    ensures var after := LatchOver(reserve, readings + [reading]);
            && (ReserveVerdict(reserve, after, reading).Some? <==>
                LastDecisiveWasLow(reserve, readings + [reading]) ||
                (reading.None? && reserve.unavailable.RefuseAdmission?))
            && (reading.None? ==> after == LatchOver(reserve, readings))
  {
    LatchIsLastDecisive(reserve, readings + [reading]);
    assert (readings + [reading])[..|readings|] == readings;
  }

  /** The last known reading is what the latch remembers. */
  lemma {:induction false} LatchRemembersLastKnown(reserve: Reserve, readings: seq<Option<nat>>)
    ensures var known := LatchOver(reserve, readings).lastKnown;
            if known == None then forall i | 0 <= i < |readings| :: readings[i] == None
            else exists i :: 0 <= i < |readings| && readings[i] == known &&
                             forall j | i < j < |readings| :: readings[j] == None
  {
    if |readings| > 0 {
      var n := |readings| - 1;
      var front := readings[..n];
      LatchRemembersLastKnown(reserve, front);
      if readings[n] == None && LatchOver(reserve, front).lastKnown != None {
        var i :| 0 <= i < n && front[i] == LatchOver(reserve, front).lastKnown &&
                 forall j | i < j < n :: front[j] == None;
        assert readings[i] == front[i] && forall j | i < j < n :: readings[j] == front[j];
      }
    }
  }

  /** What one append brings to the checks: the reading of the filesystem and the size of the event. */
  datatype Attempt = Attempt(reading: Option<nat>, bytes: nat)

  function LatchAfterAll(c: Capacity, attempts: seq<Attempt>): Latch {
    if |attempts| == 0 then Latch(false, None) else
      var last := attempts[|attempts| - 1];
      LatchAfter(c, LatchAfterAll(c, attempts[..|attempts| - 1]), last.reading, last.bytes)
  }

  /** The readings of the attempts whose event is not too large. */
  function Readings(limit: Option<nat>, attempts: seq<Attempt>): seq<Option<nat>> {
    if |attempts| == 0 then [] else
      var last := attempts[|attempts| - 1];
      Readings(limit, attempts[..|attempts| - 1]) +
      if limit == None || last.bytes <= limit.value then [last.reading] else []
  }

  lemma LatchOverSnoc(reserve: Reserve, readings: seq<Option<nat>>, reading: Option<nat>)
    ensures LatchOver(reserve, readings + [reading]) == NextLatch(reserve, LatchOver(reserve, readings), reading)
  {
    assert (readings + [reading])[..|readings|] == readings;
  }

  /** An oversized event is refused without a look at the filesystem: only the other attempts move the latch. */
  lemma {:induction false} LatchIgnoresOversized(c: Capacity, attempts: seq<Attempt>)
    requires c.reserve.Some?
    ensures LatchAfterAll(c, attempts) == LatchOver(c.reserve.value, Readings(c.maxEventBytes, attempts))
  {
    if |attempts| > 0 {
      var front, last := attempts[..|attempts| - 1], attempts[|attempts| - 1];
      var before := Readings(c.maxEventBytes, front);
      LatchIgnoresOversized(c, front);
      if c.maxEventBytes == None || last.bytes <= c.maxEventBytes.value {
        LatchOverSnoc(c.reserve.value, before, last.reading);
      } else {
        assert before + [] == before;
      }
    }
  }

  // ---------------------------------------------------------------- the verdict in numbers

  /** The filesystem holds an append back: too little is available, or it is not known what is. */
  predicate HeldByFilesystem(reserve: Reserve, wasOn: bool, reading: Option<nat>) {
    match reading
    case Some(available) => available <= reserve.minimum || (wasOn && available < reserve.resume)
    case None => wasOn || reserve.unavailable == RefuseAdmission
  }

  /**
   An append is accepted exactly when nothing it runs into is too small: the event limit, the filesystem reserve, and,
   if its row would be live, room for one row more and for its bytes. A limit may be met exactly.
   */
  lemma AcceptedExactly(c: Capacity, latch: Latch, reading: Option<nat>, usage: Usage, live: bool, bytes: nat)
    requires ValidCapacity(c)
    ensures Verdict(c, latch, reading, usage, live, bytes) == None <==>
            && (c.maxEventBytes == None || bytes <= c.maxEventBytes.value)
            && (c.reserve == None || !HeldByFilesystem(c.reserve.value, latch.on, reading))
            && (live ==> c.maxRows == None || usage.rows + 1 <= c.maxRows.value)
            && (live ==> c.maxBytes == None || usage.bytes + bytes <= c.maxBytes.value)
  {
  }

  /** And a refusal names the first of them in that order, with its limit and what the append would have come to. */
  lemma RefusalNamesFirst(c: Capacity, latch: Latch, reading: Option<nat>, usage: Usage, live: bool, bytes: nat)
    requires ValidCapacity(c) && Verdict(c, latch, reading, usage, live, bytes) != None
    ensures var r := Verdict(c, latch, reading, usage, live, bytes).value;
            var held := c.reserve != None && HeldByFilesystem(c.reserve.value, latch.on, reading);
            if c.maxEventBytes != None && bytes > c.maxEventBytes.value then
              r == Refusal(EventBytes, c.maxEventBytes.value, Some(0), Some(bytes))
            else if held && reading == None && !latch.on then
              r == Refusal(FilesystemEvidence, c.reserve.value.minimum, None, None)
            else if held then
              && r.dimension == FilesystemReserve
              && (r.limit == c.reserve.value.minimum || r.limit == c.reserve.value.resume)
              && (r.limit == c.reserve.value.minimum <==> reading != None && reading.value <= c.reserve.value.minimum)
              && r.current == r.attempted == (if reading != None then reading else latch.lastKnown)
            else if c.maxRows != None && usage.rows + 1 > c.maxRows.value then
              r == Refusal(PendingRows, c.maxRows.value, Some(usage.rows), Some(usage.rows + 1))
            else
              && c.maxBytes != None && usage.bytes + bytes > c.maxBytes.value
              && r == Refusal(PendingBytes, c.maxBytes.value, Some(usage.bytes), Some(usage.bytes + bytes))
  {
  }

  /** A snapshot says `unknown` exactly when admission goes on without evidence, and `open` with it or without need. */
  lemma UnknownExactly(c: Capacity, latch: Latch, reading: Option<nat>, usage: Usage)
    requires ValidCapacity(c)
    ensures var seen := Observe(c, latch, reading, usage);
            var full := (c.maxRows != None && usage.rows >= c.maxRows.value) ||
                        (c.maxBytes != None && usage.bytes >= c.maxBytes.value);
            && (seen.posture == Unknown <==>
                !full && c.reserve != None && reading == None && !latch.on &&
                c.reserve.value.unavailable == AllowLogicalAdmission)
            && (seen.posture == Unknown ==> seen.dimension == Some(FilesystemEvidence))
            && (seen.posture == Open ==> seen.dimension == None)
            && (full || (c.reserve != None && HeldByFilesystem(c.reserve.value, latch.on, reading)) <==>
                seen.posture == Refusing)
  {
  }
}
