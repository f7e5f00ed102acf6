/** The value-level rules of the work-session logger: which requests and
    allocations are complete, the rewrite of a trailing `Z`, and what one
    session does to the `demands` and `work_logs` tables. */
module TrackerRules {
  import opened Common

  // ------------------------------------------------------------ timestamps

  predicate EndsWithZ(s: string) {
    |s| > 0 && s[|s| - 1] == 'Z'
  }

  /** A trailing `Z` (UTC) is spelled `+00:00`, the form the ISO parser
      accepts; any other text is passed on unchanged. */
  function NormalizeZulu(s: string): (r: string)
    ensures !EndsWithZ(r)
    ensures EndsWithZ(s) ==> |r| == |s| + 5 && r[..|s| - 1] == s[..|s| - 1] && r[|s| - 1..] == "+00:00"
    ensures !EndsWithZ(s) ==> r == s
  {
    if EndsWithZ(s) then s[..|s| - 1] + "+00:00" else s
  }

  /** Normalizing twice is normalizing once. */
  lemma NormalizeIdempotent(s: string)
    ensures NormalizeZulu(NormalizeZulu(s)) == NormalizeZulu(s)
  {
  }

  /** What the ISO parser makes of a timestamp: a point in time, or the
      text of the error it raises. */
  datatype Parsed = At(time: Timestamp) | Unparsable(reason: string)

  // -------------------------------------------------------------- requests

  /** One entry of `allocations`: each field is absent (`None`) when the
      JSON object lacks it or holds null. */
  datatype Allocation = Allocation(
    demandId: Option<string>,
    minutesSpent: Option<int>,
    description: Option<string>,
    newStatus: Option<string>)

  /** The JSON body of a work session. */
  datatype WorkRequest = WorkRequest(
    startTime: Option<string>,
    endTime: Option<string>,
    totalMinutes: Option<int>,
    allocations: Option<seq<Allocation>>)

  /** `all([start_time, end_time, total_minutes, allocations])`. */
  predicate RequestGiven(req: WorkRequest) {
    && TextGiven(req.startTime)
    && TextGiven(req.endTime)
    && NumberGiven(req.totalMinutes)
    && req.allocations.Some? && |req.allocations.value| > 0
  }

  /** `all([demand_id, minutes_spent, description])`. */
  predicate Complete(a: Allocation) {
    TextGiven(a.demandId) && NumberGiven(a.minutesSpent) && TextGiven(a.description)
  }

  predicate AllComplete(allocs: seq<Allocation>) {
    forall i | 0 <= i < |allocs| :: Complete(allocs[i])
  }

  // ----------------------------------------------------------- bookkeeping

  /** The demand row an allocation's `WHERE id = %s` selects. */
  function Target(a: Allocation): Option<DemandId> {
    if a.demandId.Some? then ParseId(a.demandId.value) else None
  }

  function Hours(minutes: int): real {
    minutes as real / 60.0
  }

  /** The two UPDATEs of one allocation on the row it selects. */
  function Book(d: Demand, a: Allocation): Demand
    requires Complete(a)
  {
    d.(executedHours := d.executedHours + Hours(a.minutesSpent.value),
       status := if TextGiven(a.newStatus) then a.newStatus.value else d.status)
  }

  function BookOne(m: map<DemandId, Demand>, a: Allocation): map<DemandId, Demand>
    requires Complete(a)
  {
    var t := Target(a);
    if t.Some? && t.value in m then m[t.value := Book(m[t.value], a)] else m
  }

  /** The `demands` table after the allocations are booked in input order. */
  function BookAll(m: map<DemandId, Demand>, allocs: seq<Allocation>): (r: map<DemandId, Demand>)
    requires AllComplete(allocs)
    ensures r.Keys == m.Keys
  {
    if allocs == [] then m
    else BookOne(BookAll(m, allocs[..|allocs| - 1]), allocs[|allocs| - 1])
  }

  lemma PrefixComplete(allocs: seq<Allocation>, i: nat)
    requires i < |allocs| && AllComplete(allocs[..i]) && Complete(allocs[i])
    ensures AllComplete(allocs[..i + 1])
  {
    assert forall j | 0 <= j < i :: allocs[..i + 1][j] == allocs[..i][j];
  }

  lemma BookAllStep(m: map<DemandId, Demand>, allocs: seq<Allocation>, i: nat)
    requires i < |allocs| && AllComplete(allocs[..i + 1])
    ensures AllComplete(allocs[..i]) && Complete(allocs[i])
    ensures BookAll(m, allocs[..i + 1]) == BookOne(BookAll(m, allocs[..i]), allocs[i])
  {
    assert allocs[..i + 1][..i] == allocs[..i];
    assert allocs[..i + 1][i] == allocs[i];
  }

  /** The minutes the allocations book against demand `k`. */
  function MinutesFor(allocs: seq<Allocation>, k: DemandId): int
    requires AllComplete(allocs)
  {
    if allocs == [] then 0
    else
      var last := allocs[|allocs| - 1];
      MinutesFor(allocs[..|allocs| - 1], k) + (if Target(last) == Some(k) then last.minutesSpent.value else 0)
  }

  /** The `work_logs` row of one allocation. */
  function LogRow(sid: SessionId, a: Allocation): WorkLog
    requires Complete(a)
  {
    WorkLog(sid, a.demandId.value, a.minutesSpent.value, a.description.value, a.newStatus)
  }

  /** The rows a session adds to `work_logs`: one per allocation, in input
      order, each pointing at the session and carrying that allocation's
      demand_id, minutes, description and new status. */
  function LogRows(sid: SessionId, allocs: seq<Allocation>): (rows: seq<WorkLog>)
    requires AllComplete(allocs)
    ensures |rows| == |allocs|
    ensures forall i | 0 <= i < |rows| ::
              && rows[i].sessionId == sid
              && Some(rows[i].demandId) == allocs[i].demandId
              && Some(rows[i].minutesSpent) == allocs[i].minutesSpent
              && Some(rows[i].description) == allocs[i].description
              && rows[i].statusChangedTo == allocs[i].newStatus
  {
    seq(|allocs|, i requires 0 <= i < |allocs| => LogRow(sid, allocs[i]))
  }

  lemma LogRowsStep(sid: SessionId, allocs: seq<Allocation>, i: nat)
    requires i < |allocs| && AllComplete(allocs[..i + 1])
    ensures AllComplete(allocs[..i]) && Complete(allocs[i])
    ensures LogRows(sid, allocs[..i + 1]) == LogRows(sid, allocs[..i]) + [LogRow(sid, allocs[i])]
  {
    assert allocs[..i + 1][..i] == allocs[..i];
    assert allocs[..i + 1][i] == allocs[i];
  }

  // ---------------------------------------------------------- the promises

  /** Every allocation adds its minutes / 60 to the executed hours of the
      demand it names; repeated demands accumulate. */
  lemma {:induction false} BookedHours(m: map<DemandId, Demand>, allocs: seq<Allocation>, k: DemandId)
    requires AllComplete(allocs) && k in m
    ensures k in BookAll(m, allocs)
    ensures BookAll(m, allocs)[k].executedHours == m[k].executedHours + Hours(MinutesFor(allocs, k))
  {
    if allocs != [] {
      var p, last := allocs[..|allocs| - 1], allocs[|allocs| - 1];
      BookedHours(m, p, k);
      var before := BookAll(m, p)[k].executedHours;
      var added := if Target(last) == Some(k) then last.minutesSpent.value else 0;
      assert BookAll(m, allocs)[k].executedHours == before + Hours(added);
      assert Hours(MinutesFor(p, k)) + Hours(added) == Hours(MinutesFor(p, k) + added);
    }
  }

  /** Booking keeps the rows of the table and every field but executed
      hours and status; a demand no allocation names is left as it was. */
  lemma {:induction false} BookedRowsKept(m: map<DemandId, Demand>, allocs: seq<Allocation>)
    requires AllComplete(allocs)
    ensures forall k | k in m ::
              BookAll(m, allocs)[k]
                == m[k].(executedHours := BookAll(m, allocs)[k].executedHours, status := BookAll(m, allocs)[k].status)
    ensures forall k | k in m && (forall i | 0 <= i < |allocs| :: Target(allocs[i]) != Some(k)) ::
              BookAll(m, allocs)[k] == m[k]
  {
    if allocs != [] {
      var p := allocs[..|allocs| - 1];
      BookedRowsKept(m, p);
      forall k | k in m && (forall i | 0 <= i < |allocs| :: Target(allocs[i]) != Some(k))
        ensures BookAll(m, allocs)[k] == m[k]
      {
        assert forall i | 0 <= i < |p| :: Target(p[i]) != Some(k) by {
          forall i | 0 <= i < |p| ensures Target(p[i]) != Some(k) { assert p[i] == allocs[i]; }
        }
      }
    }
  }

  /** A demand that no allocation gives a non-empty new status keeps its
      status. */
  lemma {:induction false} BookedStatusKept(m: map<DemandId, Demand>, allocs: seq<Allocation>, k: DemandId)
    requires AllComplete(allocs) && k in m
    requires forall i | 0 <= i < |allocs| && Target(allocs[i]) == Some(k) :: !TextGiven(allocs[i].newStatus)
    ensures BookAll(m, allocs)[k].status == m[k].status
  {
    if allocs != [] {
      var p := allocs[..|allocs| - 1];
      assert forall i | 0 <= i < |p| :: p[i] == allocs[i];
      BookedStatusKept(m, p, k);
    }
  }

  /** A demand's status becomes the new status of the last allocation that
      names it with a non-empty new status. */
  lemma {:induction false} BookedStatusLatest(m: map<DemandId, Demand>, allocs: seq<Allocation>, k: DemandId, i: nat)
    requires AllComplete(allocs) && k in m
    requires i < |allocs| && Target(allocs[i]) == Some(k) && TextGiven(allocs[i].newStatus)
    requires forall j | i < j < |allocs| && Target(allocs[j]) == Some(k) :: !TextGiven(allocs[j].newStatus)
    ensures BookAll(m, allocs)[k].status == allocs[i].newStatus.value
  {
    var p := allocs[..|allocs| - 1];
    if i < |allocs| - 1 {
      assert forall j | 0 <= j < |p| :: p[j] == allocs[j];
      BookedStatusLatest(m, p, k, i);
    }
  }

  lemma {:induction false} MinutesNonNegative(allocs: seq<Allocation>, k: DemandId)
    requires AllComplete(allocs) && forall i | 0 <= i < |allocs| :: allocs[i].minutesSpent.value >= 0
    ensures MinutesFor(allocs, k) >= 0
  {
    if allocs != [] {
      var p := allocs[..|allocs| - 1];
      assert forall i | 0 <= i < |p| :: p[i] == allocs[i];
      MinutesNonNegative(p, k);
    }
  }

  /** Executed hours never decrease when no allocation books negative
      minutes. */
  lemma ExecutedHoursMonotone(m: map<DemandId, Demand>, allocs: seq<Allocation>)
    requires AllComplete(allocs) && forall i | 0 <= i < |allocs| :: allocs[i].minutesSpent.value >= 0
    ensures forall k | k in m :: k in BookAll(m, allocs) && BookAll(m, allocs)[k].executedHours >= m[k].executedHours
  {
    forall k | k in m ensures k in BookAll(m, allocs) && BookAll(m, allocs)[k].executedHours >= m[k].executedHours {
      BookedHours(m, allocs, k);
      MinutesNonNegative(allocs, k);
    }
  }

  /** Nothing rejects negative minutes: booking -30 minutes takes half an
      hour off a demand. */
  lemma NegativeMinutesAccepted(d: Demand)
    ensures Complete(Allocation(Some("1"), Some(-30), Some("estorno"), None))
    ensures BookAll(map[1 := d], [Allocation(Some("1"), Some(-30), Some("estorno"), None)])[1].executedHours
            == d.executedHours - 0.5
  {
    var a := Allocation(Some("1"), Some(-30), Some("estorno"), None);
    assert ParseId("1") == Some(1);
    assert [a][..0] == [];
  }

  /** The session of the logging test: 40 minutes on demand 1 with status
      "Concluída", then 20 minutes on demand 2 with no new status. */
  lemma LoggedExample(m: map<DemandId, Demand>)
    requires 1 in m && 2 in m
    ensures var allocs := [Allocation(Some("1"), Some(40), Some("Trabalhei na demanda 1"), Some("Concluída")),
                           Allocation(Some("2"), Some(20), Some("Trabalhei na demanda 2"), None)];
            && AllComplete(allocs)
            && BookAll(m, allocs)[1] == m[1].(executedHours := m[1].executedHours + 40.0 / 60.0, status := "Concluída")
            && BookAll(m, allocs)[2] == m[2].(executedHours := m[2].executedHours + 20.0 / 60.0)
  {
    var a1 := Allocation(Some("1"), Some(40), Some("Trabalhei na demanda 1"), Some("Concluída"));
    var a2 := Allocation(Some("2"), Some(20), Some("Trabalhei na demanda 2"), None);
    var allocs := [a1, a2];
    assert ParseId("1") == Some(1) && ParseId("2") == Some(2);
    assert allocs[..1] == [a1] && [a1][..0] == [];
    assert Target(a1) == Some(1) && Target(a2) == Some(2);
    var m1 := BookAll(m, [a1]);
    assert m1 == BookOne(BookAll(m, []), a1);
    assert m1 == m[1 := Book(m[1], a1)];
    assert BookAll(m, allocs) == m1[2 := Book(m1[2], a2)];
  }
}
