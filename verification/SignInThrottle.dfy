/** The local sign-in account: every attempt is counted durably before the password is hashed, and the fifth
    one closes the account for five minutes. */
module SignInThrottle {

  const BLOCK_SECONDS := 300.0
  const MAX_FAILURES := 5

  datatype Row = Row(failures: int, blockedUntil: real)

  /** What the reader of the stored row accepts. */
  predicate Readable(r: Row) {
    0 <= r.failures <= MAX_FAILURES && r.blockedUntil >= 0.0
  }

  datatype Answer = Unavailable | Throttled | Interrupted | Wrong | Right

  /** The counted row, written before hashing. */
  function Counted(r: Row, now: real): Row {
    var open := if r.blockedUntil != 0.0 then Row(0, 0.0) else r;
    var failures := open.failures + 1;
    Row(failures, if failures >= MAX_FAILURES then now + BLOCK_SECONDS else open.blockedUntil)
  }

  /** One call at time `now`; `died` says that the process stopped after the first write. */
  datatype Call = Call(now: real, matches: bool, died: bool)

  function Verify(r: Row, c: Call): (Row, Answer) {
    if !Readable(r) then (r, Unavailable)
    else if r.blockedUntil > c.now then (r, Throttled)
    else if c.died then (Counted(r, c.now), Interrupted)
    else if c.matches then (Row(0, 0.0), Right)
    else (Counted(r, c.now), Wrong)
  }

  predicate IsAttempt(a: Answer) {
    a in {Interrupted, Wrong, Right}
  }

  function RowAfter(r: Row, calls: seq<Call>): Row {
    if calls == [] then r else Verify(RowAfter(r, calls[..|calls| - 1]), calls[|calls| - 1]).0
  }

  /** The times at which guesses were recorded. */
  function Recorded(r: Row, calls: seq<Call>): seq<real> {
    if calls == [] then []
    else
      var front := calls[..|calls| - 1];
      Recorded(r, front) + if IsAttempt(Verify(RowAfter(r, front), calls[|calls| - 1]).1) then [calls[|calls| - 1].now] else []
  }

  predicate ClockMoves(calls: seq<Call>) {
    && (forall i | 0 <= i < |calls| :: calls[i].now >= 0.0)
    && (forall i, j | 0 <= i < j < |calls| :: calls[i].now <= calls[j].now)
  }

  predicate NoSuccess(r: Row, calls: seq<Call>) {
    calls != [] ==> NoSuccess(r, calls[..|calls| - 1]) && Verify(RowAfter(r, calls[..|calls| - 1]), calls[|calls| - 1]).1 != Right
  }

  // ---------- what a run of failing calls leaves ----------

  /** No call of the run both lives and matches. */
  predicate AllFail(calls: seq<Call>) {
    forall i | 0 <= i < |calls| :: calls[i].died || !calls[i].matches
  }

  /** The `n`-th attempt's place among five; none has none. */
  function PlaceInFive(n: nat): nat {
    if n == 0 then 0 else (n - 1) % 5 + 1
  }

  lemma NextPlace(n: nat)
    ensures PlaceInFive(n) <= 5 && (PlaceInFive(n) == 5 <==> n > 0 && n % 5 == 0)
    ensures PlaceInFive(n + 1) == if PlaceInFive(n) == 5 then 1 else PlaceInFive(n) + 1
  {
  }

  /** The row as a function of the recorded attempts alone. */
  predicate TellsAttempts(row: Row, times: seq<real>) {
    && row.failures == PlaceInFive(|times|)
    && row.blockedUntil == (if row.failures == 5 then times[|times| - 1] + 300.0 else 0.0)
  }

  lemma AttemptTells(row: Row, times: seq<real>, c: Call)
    requires TellsAttempts(row, times) && (forall i | 0 <= i < |times| :: times[i] >= 0.0) && c.now >= 0.0 && (c.died || !c.matches)
    ensures TellsAttempts(Verify(row, c).0, if IsAttempt(Verify(row, c).1) then times + [c.now] else times)
  {
    NextPlace(|times|);
  }

  lemma {:induction false} RunTellsAttempts(calls: seq<Call>)
    requires ClockMoves(calls) && AllFail(calls)
    ensures TellsAttempts(RowAfter(Row(0, 0.0), calls), Recorded(Row(0, 0.0), calls))
    ensures forall i | 0 <= i < |Recorded(Row(0, 0.0), calls)| :: Recorded(Row(0, 0.0), calls)[i] >= 0.0
  {
    if calls != [] {
      var front := calls[..|calls| - 1];
      RunTellsAttempts(front);
      AttemptTells(RowAfter(Row(0, 0.0), front), Recorded(Row(0, 0.0), front), calls[|calls| - 1]);
    }
  }

  /** After any run of failing calls from the configured row, the stored row is a function of the recorded attempts alone:
      they are counted in fives, and every fifth sets a deadline five minutes on. So the next call is turned away exactly
      when the attempts so far are a full five and the last of them is less than five minutes old. */
  lemma CountsInFives(calls: seq<Call>, next: Call)
    requires ClockMoves(calls) && AllFail(calls) && next.now >= 0.0
    ensures var row, times := RowAfter(Row(0, 0.0), calls), Recorded(Row(0, 0.0), calls);
            var n := |times|;
            && row.failures == (if n == 0 then 0 else (n - 1) % 5 + 1)
            && row.blockedUntil == (if n > 0 && n % 5 == 0 then times[n - 1] + 300.0 else 0.0)
            && (Verify(row, next).1 == Throttled <==> n > 0 && n % 5 == 0 && next.now < times[n - 1] + 300.0)
            && (Verify(row, next).1 == Right <==> Verify(row, next).1 != Throttled && !next.died && next.matches)
  {
    RunTellsAttempts(calls);
    NextPlace(|Recorded(Row(0, 0.0), calls)|);
  }

  // ---------- the stored row ----------

  /** Five failures and a deadline come together. */
  predicate Coupled(r: Row) {
    Readable(r) && (r.failures == MAX_FAILURES <==> r.blockedUntil > 0.0)
  }

  /** From the configured row the store always satisfies its own reader, whatever is called and wherever it dies. */
  lemma {:induction false} AlwaysReadable(calls: seq<Call>)
    requires ClockMoves(calls)
    ensures Coupled(RowAfter(Row(0, 0.0), calls))
  {
    if calls != [] {
      var front := calls[..|calls| - 1];
      AlwaysReadable(front);
    }
  }

  /** Five failures and no deadline: readable, but never written. */
  predicate Unguarded(r: Row) {
    r.failures == MAX_FAILURES && r.blockedUntil == 0.0
  }

  lemma {:induction false} StaysReadable(r: Row, calls: seq<Call>)
    requires Readable(r) && !Unguarded(r) && ClockMoves(calls)
    ensures Readable(RowAfter(r, calls)) && !Unguarded(RowAfter(r, calls))
  {
    if calls != [] {
      StaysReadable(r, calls[..|calls| - 1]);
    }
  }

  /** The reader accepts one kind of row the writer never makes: a readable row is readable after every sequence of
      calls if and only if it is not that one, which the next attempt spoils for good. */
  lemma CountStaysReadable(r: Row)
    requires Readable(r)
    ensures !Unguarded(r) <==> forall calls | ClockMoves(calls) :: Readable(RowAfter(r, calls))
  {
    if Unguarded(r) {
      var calls := [Call(0.0, false, true)];
      assert calls[..0] == [];
      assert ClockMoves(calls) && !Readable(RowAfter(r, calls));
    } else {
      forall calls | ClockMoves(calls) ensures Readable(RowAfter(r, calls)) {
        StaysReadable(r, calls);
      }
    }
  }

  // ---------- the rate ----------

  predicate UpTo(times: seq<real>, now: real) {
    forall i | 0 <= i < |times| :: times[i] <= now
  }

  lemma {:induction false} RecordedIsSorted(r: Row, calls: seq<Call>)
    requires ClockMoves(calls)
    ensures forall i | 0 <= i < |Recorded(r, calls)| :: Recorded(r, calls)[i] >= 0.0
    ensures forall i, j | 0 <= i < j < |Recorded(r, calls)| :: Recorded(r, calls)[i] <= Recorded(r, calls)[j]
    ensures calls != [] ==> UpTo(Recorded(r, calls), calls[|calls| - 1].now) && UpTo(Recorded(r, calls[..|calls| - 1]), calls[|calls| - 1].now)
  {
    if calls != [] {
      var front := calls[..|calls| - 1];
      assert ClockMoves(front);
      RecordedIsSorted(r, front);
      if front != [] { assert front[|front| - 1].now <= calls[|calls| - 1].now; }
    }
  }

  predicate Spaced(times: seq<real>) {
    forall i, j | 0 <= i < |times| && i < j < |times| && j == i + MAX_FAILURES :: times[j] >= times[i] + BLOCK_SECONDS
  }

  /** Where the current group of attempts began, in terms of the stored counter. */
  predicate Tracks(start: Row, row: Row, times: seq<real>) {
    var n := |times|;
    && Coupled(row)
    && (row.failures == MAX_FAILURES && n >= 1 ==> row.blockedUntil == times[n - 1] + BLOCK_SECONDS)
    && (row.failures == start.failures + n
        || (1 <= row.failures <= n && (row.failures < n ==> times[n - row.failures] >= times[n - row.failures - 1] + BLOCK_SECONDS)))
  }

  lemma AttemptTracks(start: Row, row: Row, times: seq<real>, c: Call)
    requires Coupled(start) && Tracks(start, row, times) && Spaced(times) && c.now >= 0.0
    requires UpTo(times, c.now)
    requires forall i, j | 0 <= i < j < |times| :: times[i] <= times[j]
    requires Verify(row, c).1 in {Interrupted, Wrong}
    ensures Tracks(start, Verify(row, c).0, times + [c.now]) && Spaced(times + [c.now])
  {
    var n := |times|;
    var all := times + [c.now];
    if n >= MAX_FAILURES {
      if row.failures == MAX_FAILURES {
        assert times[n - MAX_FAILURES] <= times[n - 1];
      } else {
        assert 1 <= row.failures < n;
        assert times[n - MAX_FAILURES] <= times[n - row.failures - 1];
        assert times[n - row.failures] <= c.now;
      }
      assert c.now >= times[n - MAX_FAILURES] + BLOCK_SECONDS;
    }
  }

  lemma {:induction false} CounterTracks(r: Row, calls: seq<Call>)
    requires Coupled(r) && ClockMoves(calls) && NoSuccess(r, calls)
    ensures Tracks(r, RowAfter(r, calls), Recorded(r, calls)) && Spaced(Recorded(r, calls))
  {
    if calls != [] {
      var front, last := calls[..|calls| - 1], calls[|calls| - 1];
      CounterTracks(r, front);
      RecordedIsSorted(r, front);
      RecordedIsSorted(r, calls);
      if IsAttempt(Verify(RowAfter(r, front), last).1) {
        AttemptTracks(r, RowAfter(r, front), Recorded(r, front), last);
      }
    }
  }

  /** With a clock that does not go back and no success in between, the fifth attempt after any attempt
      comes at least five minutes later, counting interrupted attempts. */
  lemma FiveMinutesApart(r: Row, calls: seq<Call>, i: nat)
    requires Coupled(r) && ClockMoves(calls) && NoSuccess(r, calls)
    requires i + 5 < |Recorded(r, calls)|
    ensures Recorded(r, calls)[i + 5] >= Recorded(r, calls)[i] + 300.0
  {
    CounterTracks(r, calls);
  }

  function Within(times: seq<real>, from: real, length: real): set<int> {
    set i | 0 <= i < |times| && from <= times[i] < from + length
  }

  lemma {:induction false} SpacedOver(times: seq<real>, i: nat, m: nat)
    requires Spaced(times) && i + MAX_FAILURES * m < |times|
    ensures times[i + MAX_FAILURES * m] >= times[i] + BLOCK_SECONDS * m as real
    decreases m
  {
    if m > 0 {
      SpacedOver(times, i, m - 1);
    }
  }

  lemma {:induction false} IntervalSize(s: set<int>, lo: int, size: nat)
    requires forall x | x in s :: lo <= x < lo + size
    ensures |s| <= size
    decreases size
  {
    if size == 0 {
      assert forall x :: x !in s;
    } else {
      IntervalSize(s - {lo + size - 1}, lo, size - 1);
    }
  }

  lemma OutsideFrom(times: seq<real>, lo: nat, m: nat, from: real, length: real)
    requires Spaced(times) && lo < |times| && from <= times[lo] && length <= BLOCK_SECONDS * m as real
    requires forall i, j | 0 <= i < j < |times| :: times[i] <= times[j]
    ensures forall i | lo + 5 * m <= i < |times| :: i !in Within(times, from, length)
  {
    if lo + 5 * m < |times| {
      SpacedOver(times, lo, m);
      forall i | lo + 5 * m <= i < |times| ensures times[i] >= from + length {
        assert i == lo + 5 * m || times[lo + 5 * m] <= times[i];
      }
    }
  }

  /** Any half-open window of `length` seconds holds at most five evaluated guesses per started five minutes. */
  lemma WindowBound(r: Row, calls: seq<Call>, from: real, length: real, m: nat)
    requires Coupled(r) && ClockMoves(calls) && NoSuccess(r, calls)
    requires length <= 300.0 * m as real
    ensures |Within(Recorded(r, calls), from, length)| <= 5 * m
  {
    var times := Recorded(r, calls);
    CounterTracks(r, calls);
    RecordedIsSorted(r, calls);
    var inside := Within(times, from, length);
    if inside != {} {
      var lo := FirstInside(times, from, length);
      OutsideFrom(times, lo, m, from, length);
      IntervalSize(inside, lo, 5 * m);
    }
  }

  lemma {:induction false} FailingIsNoSuccess(r: Row, calls: seq<Call>)
    requires AllFail(calls)
    ensures NoSuccess(r, calls)
  {
    if calls != [] {
      FailingIsNoSuccess(r, calls[..|calls| - 1]);
    }
  }

  /** The bound for someone who does not know the password: whatever is called and wherever it dies. */
  lemma GuessesBounded(r: Row, calls: seq<Call>, from: real, length: real, m: nat)
    requires Coupled(r) && ClockMoves(calls) && AllFail(calls) && length <= 300.0 * m as real
    ensures |Within(Recorded(r, calls), from, length)| <= 5 * m
  {
    FailingIsNoSuccess(r, calls);
    WindowBound(r, calls, from, length, m);
  }

  lemma FirstInside(times: seq<real>, from: real, length: real) returns (lo: int)
    requires Within(times, from, length) != {}
    ensures lo in Within(times, from, length) && forall i | i in Within(times, from, length) :: lo <= i
  {
    lo := 0;
    while lo !in Within(times, from, length)
      invariant 0 <= lo <= |times| && forall i | i in Within(times, from, length) :: lo <= i
      decreases |times| - lo
    {
      lo := lo + 1;
    }
  }

  // ---------- the account ----------

  type Password = seq<bv8>

  class LocalAccount {
    const username: string
    const salt: string
    const verifier: string
    var row: Row

    constructor (username: string, salt: string, verifier: string)
      ensures row == Row(0, 0.0)
    {
      this.username, this.salt, this.verifier, row := username, salt, verifier, Row(0, 0.0);
    }

    method Write(r: Row)
      modifies this
      ensures row == r
    {
      row := r;
    }

    /** `hash` and `fold` stand for the password hash and the normalization of names. Arguments of an impossible
        length are turned away without counting. */
    method SignIn(name: string, password: Password, now: real, hash: (Password, string) -> string, fold: string -> string, died: bool)
      returns (answer: Answer)
      modifies this
      ensures !(1 <= |name| <= 254 && 1 <= |password| <= 1024) ==> row == old(row) && answer == Wrong
      ensures 1 <= |name| <= 254 && 1 <= |password| <= 1024 ==>
                var admitted := 0 <= old(row).failures <= 5 && 0.0 <= old(row).blockedUntil <= now;
                && (answer == Right <==> admitted && !died && hash(password, salt) == verifier && fold(name) == username)
                && (!admitted ==> row == old(row) && answer in {Unavailable, Throttled})
                && (answer == Right ==> row == Row(0, 0.0))
                && (admitted && answer != Right ==>
                      && row.failures == (if old(row).blockedUntil > 0.0 then 1 else old(row).failures + 1)
                      && row.blockedUntil == if row.failures >= 5 then now + 300.0 else 0.0)
      ensures 1 <= |name| <= 254 && 1 <= |password| <= 1024 ==>
                (row, answer) == Verify(old(row), Call(now, hash(password, salt) == verifier && fold(name) == username, died))
    {
      if !(1 <= |name| <= 254) || !(1 <= |password| <= 1024) { return Wrong; }
      var r := row;
      if !Readable(r) { return Unavailable; }
      if r.blockedUntil > now { return Throttled; }
      if r.blockedUntil != 0.0 { r := Row(0, 0.0); }
      r := r.(failures := r.failures + 1);
      if r.failures >= MAX_FAILURES { r := r.(blockedUntil := now + BLOCK_SECONDS); }
      Write(r);
      if died { return Interrupted; }
      var candidate := hash(password, salt);
      if candidate == verifier && fold(name) == username {
        Write(Row(0, 0.0));
        return Right;
      }
      answer := Wrong;
    }
  }
}
