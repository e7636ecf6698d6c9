/**
 * The service-day loop of the backward traversal: how long before the
 * current instant the hop's vehicle reached its end stop, chosen over the
 * candidate service days in the order the query lists them.
 *
 * `ScanWait` is the loop as written, one day at a time. `SettledWait` is an
 * independent closed form over the candidate waits of the qualifying days,
 * and `ScanWaitClosedForm` proves the two equal. The remaining lemmas read
 * the loop's behaviour off the closed form.
 */
module ServiceWait {
  import opened TransitTypes

  /** A day is examined when it is not in the future of `time` and runs the service. */
  predicate Qualifies(sd: ServiceDay, time: int, serviceId: AgencyAndId) {
    sd.secondsSinceMidnight(time) >= 0 && sd.serviceIdRunning(serviceId)
  }

  /** The wait that day `sd` proposes for a vehicle arriving at `arrival`. */
  function CandidateWait(sd: ServiceDay, time: int, arrival: int): int {
    sd.secondsSinceMidnight(time) - arrival
  }

  /** One iteration of the loop, starting from the current `wait`. */
  function Step(wait: int, sd: ServiceDay, time: int, serviceId: AgencyAndId, arrival: int): int {
    var secondsSinceMidnight := sd.secondsSinceMidnight(time);
    if secondsSinceMidnight < 0 then wait
    else if sd.serviceIdRunning(serviceId) then
      var newWait := secondsSinceMidnight - arrival;
      if wait < 0 || newWait < wait then newWait else wait
    else wait
  }

  /** The loop over `days` from the initial `wait = -1`. */
  function ScanWait(days: seq<ServiceDay>, time: int, serviceId: AgencyAndId, arrival: int): int {
    if days == [] then -1
    else Step(ScanWait(days[..|days| - 1], time, serviceId, arrival), days[|days| - 1],
              time, serviceId, arrival)
  }

  /** The candidate waits of the qualifying days, in day order. */
  function Candidates(days: seq<ServiceDay>, time: int, serviceId: AgencyAndId, arrival: int): seq<int> {
    if days == [] then []
    else
      var last := days[|days| - 1];
      Candidates(days[..|days| - 1], time, serviceId, arrival) +
      (if Qualifies(last, time, serviceId) then [CandidateWait(last, time, arrival)] else [])
  }

  function Last(s: seq<int>): int
    requires s != []
  {
    s[|s| - 1]
  }

  /** The smallest element of a non-empty sequence. */
  function Minimum(s: seq<int>): (m: int)
    requires s != []
    ensures m in s
    ensures forall i :: 0 <= i < |s| ==> m <= s[i]
  {
    if |s| == 1 then s[0]
    else
      var m0 := Minimum(s[..|s| - 1]);
      assert m0 in s[..|s| - 1];
      if Last(s) < m0 then Last(s) else m0
  }

  /** The longest suffix of `cs` whose elements are all non-negative. */
  function TrailingNonNegative(cs: seq<int>): (run: seq<int>)
    ensures |run| <= |cs| && run == cs[|cs| - |run|..]
    ensures forall i :: 0 <= i < |run| ==> run[i] >= 0
    ensures |run| < |cs| ==> cs[|cs| - |run| - 1] < 0
  {
    if cs == [] || Last(cs) < 0 then []
    else TrailingNonNegative(cs[..|cs| - 1]) + [Last(cs)]
  }

  /** Closed form of the loop's outcome on the candidate waits: -1 when there
      is none, the last one when it is negative, otherwise the minimum of the
      trailing run of non-negative candidates. */
  function SettledWait(cs: seq<int>): int {
    if cs == [] then -1
    else if Last(cs) < 0 then Last(cs)
    else Minimum(TrailingNonNegative(cs))
  }

  /** Appending one candidate to the closed form acts as one loop iteration. */
  lemma SettledWaitAppend(cs0: seq<int>, c: int)
    ensures var w := SettledWait(cs0);
            SettledWait(cs0 + [c]) == if w < 0 || c < w then c else w
  {
    var cs := cs0 + [c];
    assert cs[..|cs| - 1] == cs0;
    assert Last(cs) == c;
    if c >= 0 {
      var run0 := TrailingNonNegative(cs0);
      assert TrailingNonNegative(cs) == run0 + [c];
      if run0 != [] {
        assert (run0 + [c])[..|run0|] == run0;
        assert Last(cs0) == Last(run0);
      }
    }
  }

  /** The day loop computes the closed form of its candidate waits. */
  lemma {:induction false} ScanWaitClosedForm(days: seq<ServiceDay>, time: int, serviceId: AgencyAndId, arrival: int)
    ensures ScanWait(days, time, serviceId, arrival) == SettledWait(Candidates(days, time, serviceId, arrival))
  {
    if days != [] {
      var init, d := days[..|days| - 1], days[|days| - 1];
      ScanWaitClosedForm(init, time, serviceId, arrival);
      var w0 := ScanWait(init, time, serviceId, arrival);
      var cs0 := Candidates(init, time, serviceId, arrival);
      assert ScanWait(days, time, serviceId, arrival) == Step(w0, d, time, serviceId, arrival);
      if Qualifies(d, time, serviceId) {
        var c := CandidateWait(d, time, arrival);
        assert Candidates(days, time, serviceId, arrival) == cs0 + [c];
        SettledWaitAppend(cs0, c);
      } else {
        assert Candidates(days, time, serviceId, arrival) == cs0 + [];
        assert cs0 + [] == cs0;
      }
    }
  }

  /** Concatenating day lists concatenates their candidate waits. */
  lemma {:induction false} CandidatesAppend(a: seq<ServiceDay>, b: seq<ServiceDay>, time: int, serviceId: AgencyAndId, arrival: int)
    ensures Candidates(a + b, time, serviceId, arrival) ==
            Candidates(a, time, serviceId, arrival) + Candidates(b, time, serviceId, arrival)
  {
    if b == [] {
      assert a + b == a;
    } else {
      var b0 := b[..|b| - 1];
      CandidatesAppend(a, b0, time, serviceId, arrival);
      assert (a + b)[..|a + b| - 1] == a + b0;
      assert (a + b)[|a + b| - 1] == b[|b| - 1];
    }
  }

  /** A day in the future of the instant, or one on which the service does not
      run, never affects the wait, wherever it stands in the list. */
  lemma SkippedDayIgnored(before: seq<ServiceDay>, d: ServiceDay, after: seq<ServiceDay>,
                          time: int, serviceId: AgencyAndId, arrival: int)
    requires !Qualifies(d, time, serviceId)
    ensures ScanWait(before + [d] + after, time, serviceId, arrival) ==
            ScanWait(before + after, time, serviceId, arrival)
  {
    var cd := Candidates([d], time, serviceId, arrival);
    assert cd == [] by {
      assert [d][..0] == [];
      assert cd == Candidates([], time, serviceId, arrival) + [];
    }
    CandidatesAppend(before, [d], time, serviceId, arrival);
    var cb := Candidates(before + [d], time, serviceId, arrival);
    assert cb == Candidates(before, time, serviceId, arrival);
    CandidatesAppend(before + [d], after, time, serviceId, arrival);
    CandidatesAppend(before, after, time, serviceId, arrival);
    ScanWaitClosedForm(before + [d] + after, time, serviceId, arrival);
    ScanWaitClosedForm(before + after, time, serviceId, arrival);
  }

  /** The loop ends with a negative wait, so that the edge is rejected, exactly
      when no day qualifies or the LAST qualifying day proposes a negative wait,
      whatever the earlier days propose. */
  lemma {:induction false} RejectedIffLastCandidateNegative(days: seq<ServiceDay>, time: int, serviceId: AgencyAndId, arrival: int)
    ensures var cs := Candidates(days, time, serviceId, arrival);
            ScanWait(days, time, serviceId, arrival) < 0 <==> (cs == [] || Last(cs) < 0)
  {
    ScanWaitClosedForm(days, time, serviceId, arrival);
  }

  /** When every qualifying day proposes a non-negative wait, the loop picks
      the least of them. */
  lemma {:induction false} WaitIsMinimumWhenAllNonNegative(days: seq<ServiceDay>, time: int, serviceId: AgencyAndId, arrival: int)
    requires Candidates(days, time, serviceId, arrival) != []
    requires var cs := Candidates(days, time, serviceId, arrival);
             forall i :: 0 <= i < |cs| ==> cs[i] >= 0
    ensures var w := ScanWait(days, time, serviceId, arrival);
            w in Candidates(days, time, serviceId, arrival) &&
            forall c :: c in Candidates(days, time, serviceId, arrival) ==> w <= c
  {
    var cs := Candidates(days, time, serviceId, arrival);
    ScanWaitClosedForm(days, time, serviceId, arrival);
    assert TrailingNonNegative(cs) == cs;
  }

  /** A non-negative wait is the candidate of some listed day that qualifies. */
  lemma {:induction false} WaitComesFromQualifyingDay(days: seq<ServiceDay>, time: int, serviceId: AgencyAndId, arrival: int)
    requires ScanWait(days, time, serviceId, arrival) >= 0
    ensures exists i :: 0 <= i < |days| && Qualifies(days[i], time, serviceId) &&
                        CandidateWait(days[i], time, arrival) == ScanWait(days, time, serviceId, arrival)
  {
    var init, d := days[..|days| - 1], days[|days| - 1];
    var w0 := ScanWait(init, time, serviceId, arrival);
    if ScanWait(days, time, serviceId, arrival) == w0 {
      WaitComesFromQualifyingDay(init, time, serviceId, arrival);
      var i :| 0 <= i < |init| && Qualifies(init[i], time, serviceId) &&
               CandidateWait(init[i], time, arrival) == w0;
      assert days[i] == init[i];
    } else {
      assert Qualifies(days[|days| - 1], time, serviceId);
    }
  }

  /** The loop's outcome depends on day order: with a day proposing a
      non-negative wait and one proposing a negative wait, listing the
      non-negative one first ends in rejection, the other order does not. */
  lemma DayOrderMatters(d1: ServiceDay, d2: ServiceDay, time: int, serviceId: AgencyAndId, arrival: int)
    requires Qualifies(d1, time, serviceId) && Qualifies(d2, time, serviceId)
    requires CandidateWait(d1, time, arrival) >= 0 > CandidateWait(d2, time, arrival)
    ensures ScanWait([d1, d2], time, serviceId, arrival) == CandidateWait(d2, time, arrival) < 0
    ensures ScanWait([d2, d1], time, serviceId, arrival) == CandidateWait(d1, time, arrival) >= 0
  {
    assert [d1, d2][..1] == [d1];
    assert [d2, d1][..1] == [d2];
    assert [d1][..0] == [];
    assert [d2][..0] == [];
  }
}
