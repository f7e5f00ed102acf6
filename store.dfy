/** The request handlers of the demands and tracker blueprints, as methods
    on the store that holds the `demands`, `work_sessions` and `work_logs`
    tables. A transaction works on the tables in place; a rollback puts
    back the copy taken when it began. */
module Handlers {
  import opened Common
  import opened DemandRules
  import opened TrackerRules

  const INVALID_IDS: string := "Lista de IDs inválida."
  const PRIORITIES_UPDATED: string := "Prioridades atualizadas."
  const PRIORITIES_FAILED: string := "Erro ao atualizar prioridades: "
  const INCOMPLETE_DATA: string := "Dados incompletos."
  const WORK_SAVED: string := "Log de trabalho salvo."
  const SERVER_ERROR: string := "Erro no servidor: "
  const INCOMPLETE_ALLOCATION: string := "Alocação de demanda com dados incompletos."

  /** The fields of the demand form; `None` when the form lacks one. */
  datatype DemandForm = DemandForm(
    demandId: Option<string>,
    title: Option<string>,
    description: Option<string>,
    status: Option<string>,
    estimatedHours: Option<string>)

  /** Where saving a demand redirects: back to the dashboard when a required
      field is missing, to the edited demand, to the prioritization of the
      new one, or back to the dashboard after the transaction failed. */
  datatype SaveOutcome = MissingRequired | Updated(demandId: string) | Created(newId: DemandId) | SaveFailed

  /** The `ordered_ids` member of the reordering body. */
  datatype IdsField = Absent | NotAList | IdList(items: seq<IdItem>)

  predicate RequiredGiven(form: DemandForm) {
    TextGiven(form.title) && TextGiven(form.status)
  }

  /** A non-empty id other than "0" edits; otherwise the form creates. */
  predicate IsEdit(form: DemandForm) {
    TextGiven(form.demandId) && form.demandId.value != "0"
  }

  /** `estimated_hours or None`: an empty field is stored as NULL. */
  function EstimateOf(form: DemandForm): (e: Option<string>)
    ensures e.Some? <==> TextGiven(form.estimatedHours)
    ensures e.Some? ==> e == form.estimatedHours
  {
    if TextGiven(form.estimatedHours) then form.estimatedHours else None
  }

  /** An edit rewrites the editable fields and the update time; the rank,
      the executed hours and the creation time stay. */
  function Edited(d: Demand, form: DemandForm, now: Timestamp): (r: Demand)
    requires RequiredGiven(form)
    ensures r.priority == d.priority && r.executedHours == d.executedHours && r.createdAt == d.createdAt
    ensures Some(r.title) == form.title && r.description == form.description && Some(r.status) == form.status
    ensures r.estimatedHours == EstimateOf(form) && r.updatedAt == now
  {
    d.(title := form.title.value, description := form.description, status := form.status.value,
       estimatedHours := EstimateOf(form), updatedAt := now)
  }

  /** The row a creation inserts; executed hours start at zero. */
  function NewDemand(form: DemandForm, priority: int, now: Timestamp): (r: Demand)
    requires RequiredGiven(form)
    ensures r.executedHours == 0.0 && r.priority == priority && r.createdAt == now && r.updatedAt == now
    ensures Some(r.title) == form.title && r.description == form.description && Some(r.status) == form.status
    ensures r.estimatedHours == EstimateOf(form)
  {
    Demand(form.title.value, form.description, form.status.value, priority, now, now, EstimateOf(form), 0.0)
  }

  /** The table after an edit: the row the id selects, if there is one. */
  function EditedTable(m: map<DemandId, Demand>, form: DemandForm, now: Timestamp): (r: map<DemandId, Demand>)
    requires RequiredGiven(form) && IsEdit(form)
    ensures r.Keys == m.Keys
    ensures forall k | k in m && Some(k) != ParseId(form.demandId.value) :: r[k] == m[k]
    ensures forall k | k in m && Some(k) == ParseId(form.demandId.value) :: r[k] == Edited(m[k], form, now)
  {
    var key := ParseId(form.demandId.value);
    if key.Some? && key.value in m then m[key.value := Edited(m[key.value], form, now)] else m
  }

  predicate PrioritiesValid(field: IdsField) {
    field.IdList? && |field.items| > 0
  }

  /** Some element of the list makes its UPDATE raise. */
  predicate AnyUnbound(items: seq<IdItem>) {
    exists i | 0 <= i < |items| :: !Binds(items[i])
  }

  /** The two timestamps of a work session after the `Z` rewrite. */
  function StartOf(req: WorkRequest, parse: string -> Parsed): Parsed
    requires RequestGiven(req)
  {
    parse(NormalizeZulu(req.startTime.value))
  }

  function EndOf(req: WorkRequest, parse: string -> Parsed): Parsed
    requires RequestGiven(req)
  {
    parse(NormalizeZulu(req.endTime.value))
  }

  /** The rows of `m` a scan in key order has passed before reaching `id`. */
  function Below(m: map<DemandId, Demand>, id: DemandId): set<DemandId> {
    set k | k in m && k < id
  }

  /** The rows a scan in key order has kept before reaching `id`. */
  function Scanned(m: map<DemandId, Demand>, f: Filter, id: DemandId): set<DemandId> {
    set k | k in m && k < id && Selected(f, m[k])
  }

  lemma ScannedStep(m: map<DemandId, Demand>, f: Filter, id: DemandId)
    ensures id in m && Selected(f, m[id]) ==> multiset(Scanned(m, f, id + 1)) == multiset(Scanned(m, f, id)) + multiset{id}
    ensures !(id in m && Selected(f, m[id])) ==> Scanned(m, f, id + 1) == Scanned(m, f, id)
  {
    if id in m && Selected(f, m[id]) {
      assert Scanned(m, f, id + 1) == Scanned(m, f, id) + {id};
    }
  }

  function SessionIds(sessions: seq<WorkSession>): set<SessionId> {
    set i | 0 <= i < |sessions| :: sessions[i].id
  }

  /** Ids are below their counters, sessions are kept in id order, and
      every log belongs to a session. */
  predicate TablesValid(demands: map<DemandId, Demand>, sessions: seq<WorkSession>, logs: seq<WorkLog>,
                        nextDemandId: DemandId, nextSessionId: SessionId)
  {
    && 1 <= nextDemandId
    && (forall k | k in demands :: 1 <= k < nextDemandId)
    && 1 <= nextSessionId
    && (forall i | 0 <= i < |sessions| :: 1 <= sessions[i].id < nextSessionId)
    && (forall i, j | 0 <= i < j < |sessions| :: sessions[i].id < sessions[j].id)
    && (forall i | 0 <= i < |logs| :: logs[i].sessionId in SessionIds(sessions))
  }

  /** A committed session keeps the tables valid: it takes the next session
      id, and its logs point at it. */
  lemma SessionCommitted(demands: map<DemandId, Demand>, sessions: seq<WorkSession>, logs: seq<WorkLog>,
                         nextDemandId: DemandId, nextSessionId: SessionId,
                         booked: map<DemandId, Demand>, s: WorkSession, rows: seq<WorkLog>)
    requires TablesValid(demands, sessions, logs, nextDemandId, nextSessionId)
    requires booked.Keys == demands.Keys && s.id == nextSessionId
    requires forall i | 0 <= i < |rows| :: rows[i].sessionId == s.id
    ensures TablesValid(booked, sessions + [s], logs + rows, nextDemandId, nextSessionId + 1)
  {
    var ss, ls := sessions + [s], logs + rows;
    assert ss[|sessions|] == s;
    forall j | 0 <= j < |ls| ensures ls[j].sessionId in SessionIds(ss) {
      if j >= |logs| {
        assert ls[j] == rows[j - |logs|];
      } else {
        var k :| 0 <= k < |sessions| && sessions[k].id == logs[j].sessionId;
        assert ss[k] == sessions[k];
      }
    }
  }

  class Store {
    var demands: map<DemandId, Demand>
    var sessions: seq<WorkSession>
    var logs: seq<WorkLog>
    /** The AUTO_INCREMENT counters of `demands` and `work_sessions`. */
    var nextDemandId: DemandId
    var nextSessionId: SessionId

    ghost predicate Valid()
      reads this
    {
      TablesValid(demands, sessions, logs, nextDemandId, nextSessionId)
    }

    constructor ()
      ensures Valid()
      ensures demands == map[] && sessions == [] && logs == []
      ensures nextDemandId == 1 && nextSessionId == 1
    {
      demands, sessions, logs := map[], [], [];
      nextDemandId, nextSessionId := 1, 1;
    }

    // ---------------------------------------------------------- queries

    /** `SELECT COALESCE(MAX(priority), -1) FROM demands`, read by a scan in
        key order. */
    method MaxPriority() returns (p: int)
      requires Valid()
      ensures IsTopPriority(demands, p)
    {
      p := -1;
      var seen := false;
      for id := 1 to nextDemandId
        invariant !seen ==> Below(demands, id) == {} && p == -1
        invariant seen ==> exists k | k in Below(demands, id) :: demands[k].priority == p
        invariant forall k | k in Below(demands, id) :: demands[k].priority <= p
      {
        if id in demands {
          if !seen || demands[id].priority > p {
            p := demands[id].priority;
          }
          seen := true;
        }
        assert Below(demands, id + 1) == Below(demands, id) + (if id in demands then {id} else {});
      }
      assert Below(demands, nextDemandId) == demands.Keys;
    }

    /** A `SELECT ... FROM demands [WHERE ...] ORDER BY ...`, read by a scan
        in key order and sorted as it goes. */
    method Query(f: Filter, o: Ordering) returns (ids: seq<DemandId>)
      requires Valid()
      ensures IsView(demands, f, o, ids)
    {
      var m := demands;
      ids := [];
      for id := 1 to nextDemandId
        invariant InTable(m, ids) && Sorted(m, o, ids)
        invariant multiset(ids) == multiset(Scanned(m, f, id))
      {
        ScannedStep(m, f, id);
        if id in m && Selected(f, m[id]) {
          ids := Insert(m, o, ids, id);
        }
      }
      assert Scanned(m, f, nextDemandId) == SelectedIds(m, f);
    }

    /** The dashboard: the pending demands by rank and age, or with
        `view` other than "prioritize" every demand, newest first. */
    method Dashboard(view: Option<string>) returns (ids: seq<DemandId>)
      requires Valid()
      ensures view == None || view == Some("prioritize") ==> IsView(demands, PendingOnly, ByPriorityThenAge, ids)
      ensures view != None && view != Some("prioritize") ==> IsView(demands, Everything, NewestFirst, ids)
    {
      var v := if view.Some? then view.value else "prioritize";
      if v == "prioritize" {
        ids := Query(PendingOnly, ByPriorityThenAge);
      } else {
        ids := Query(Everything, NewestFirst);
      }
    }

    /** The prioritization page: the pending demands by rank and age. */
    method Prioritize() returns (ids: seq<DemandId>)
      requires Valid()
      ensures IsView(demands, PendingOnly, ByPriorityThenAge, ids)
    {
      ids := Query(PendingOnly, ByPriorityThenAge);
    }

    /** The tracker's page: the pending demands by rank. */
    method PendingDemands() returns (ids: seq<DemandId>)
      requires Valid()
      ensures IsView(demands, PendingOnly, ByPriority, ids)
    {
      ids := Query(PendingOnly, ByPriority);
    }

    // ---------------------------------------------------------- writes

    /** Saves the demand form: refuses it without a title and a status;
        edits the demand it names, unless the id is no integer the redirect
        can carry; or creates a demand ranked last. */
    method SaveDemand(form: DemandForm, now: Timestamp) returns (out: SaveOutcome)
      requires Valid()
      modifies this
      ensures Valid()
      ensures sessions == old(sessions) && logs == old(logs) && nextSessionId == old(nextSessionId)
      ensures !RequiredGiven(form) ==>
                out == MissingRequired && demands == old(demands) && nextDemandId == old(nextDemandId)
      ensures RequiredGiven(form) && IsEdit(form) && IntAccepts(form.demandId.value) ==>
                && out == Updated(form.demandId.value)
                && demands == EditedTable(old(demands), form, now)
                && nextDemandId == old(nextDemandId)
      ensures RequiredGiven(form) && IsEdit(form) && !IntAccepts(form.demandId.value) ==>
                out == SaveFailed && demands == old(demands) && nextDemandId == old(nextDemandId)
      ensures RequiredGiven(form) && !IsEdit(form) ==>
                && out == Created(old(nextDemandId))
                && old(nextDemandId) !in old(demands)
                && demands.Keys == old(demands).Keys + {old(nextDemandId)}
                && (forall k | k in old(demands) :: demands[k] == old(demands)[k])
                && IsTopPriority(old(demands), demands[old(nextDemandId)].priority - 1)
                && demands[old(nextDemandId)] == NewDemand(form, demands[old(nextDemandId)].priority, now)
                && nextDemandId == old(nextDemandId) + 1
    {
      if !RequiredGiven(form) {
        return MissingRequired;
      }
      if IsEdit(form) {
        out := EditDemand(form, now);
      } else {
        var id := CreateDemand(form, now);
        out := Created(id);
      }
    }

    /** The edit path of the form: the UPDATE, then the redirect to the
        demand's page, whose `<int:demand_id>` route needs an integer id. */
    method EditDemand(form: DemandForm, now: Timestamp) returns (out: SaveOutcome)
      requires RequiredGiven(form) && IsEdit(form)
      modifies this`demands
      ensures IntAccepts(form.demandId.value) ==>
                out == Updated(form.demandId.value) && demands == EditedTable(old(demands), form, now)
      ensures !IntAccepts(form.demandId.value) ==> out == SaveFailed && demands == old(demands)
    {
      var saved := demands;
      demands := EditedTable(demands, form, now);
      if !IntAccepts(form.demandId.value) {
        // building the redirect raises: the UPDATE is rolled back
        demands := saved;
        return SaveFailed;
      }
      out := Updated(form.demandId.value);
    }

    /** The create path of the form: the new row takes the next id, ranked
        one above the highest rank. */
    method CreateDemand(form: DemandForm, now: Timestamp) returns (id: DemandId)
      requires Valid() && RequiredGiven(form)
      modifies this`demands, this`nextDemandId
      ensures Valid()
      ensures id == old(nextDemandId) && id !in old(demands)
      ensures demands.Keys == old(demands).Keys + {id}
      ensures forall k | k in old(demands) :: demands[k] == old(demands)[k]
      ensures IsTopPriority(old(demands), demands[id].priority - 1)
      ensures demands[id] == NewDemand(form, demands[id].priority, now)
      ensures nextDemandId == old(nextDemandId) + 1
    {
      var top := MaxPriority();
      id := nextDemandId;
      demands := demands[id := NewDemand(form, top + 1, now)];
      nextDemandId := nextDemandId + 1;
    }

    /** Rewrites every listed demand's priority to its position in the list,
        all in one transaction; an unusable list is refused first. */
    method UpdatePriorities(field: IdsField) returns (resp: Response)
      requires Valid()
      modifies this`demands
      ensures Valid()
      ensures !PrioritiesValid(field) ==> resp == Invalid(INVALID_IDS) && demands == old(demands)
      ensures PrioritiesValid(field) && AnyUnbound(field.items) ==>
                resp == ServerError(PRIORITIES_FAILED) && demands == old(demands)
      ensures PrioritiesValid(field) && !AnyUnbound(field.items) ==>
                resp == Ok(PRIORITIES_UPDATED) && demands == Reprioritized(old(demands), field.items)
    {
      if !PrioritiesValid(field) {
        return Invalid(INVALID_IDS);
      }
      var saved := demands;
      var ranked := RankAll(field.items);
      if !ranked {
        // the driver's error aborts the transaction: every UPDATE is rolled back
        demands := saved;
        return ServerError(PRIORITIES_FAILED);
      }
      resp := Ok(PRIORITIES_UPDATED);
    }

    /** The UPDATE loop of a reordering, in list order; stops at the first
        element the driver cannot bind (reporting false), leaving the
        UPDATEs before it for the caller to roll back. */
    method RankAll(items: seq<IdItem>) returns (ranked: bool)
      modifies this`demands
      ensures ranked <==> !AnyUnbound(items)
      ensures demands.Keys == old(demands).Keys
      ensures ranked ==> demands == Reprioritized(old(demands), items)
    {
      assert items[..0] == [];
      ReprioritizedEmpty(demands);
      var i := 0;
      while i < |items|
        invariant 0 <= i <= |items|
        invariant forall j | 0 <= j < i :: Binds(items[j])
        invariant demands == Reprioritized(old(demands), items[..i])
        invariant demands.Keys == old(demands).Keys
      {
        if !Binds(items[i]) {
          return false;
        }
        RankOne(ItemKey(items[i]), i);
        ReprioritizedStep(old(demands), items, i);
        i := i + 1;
      }
      assert items[..|items|] == items;
      ranked := true;
    }

    /** `UPDATE demands SET priority = i WHERE id = key`. */
    method RankOne(key: Option<DemandId>, i: int)
      modifies this`demands
      ensures demands == Rank(old(demands), key, i)
    {
      if key.Some? && key.value in demands {
        demands := demands[key.value := demands[key.value].(priority := i)];
      }
    }

    /** Records a work session: refuses an incomplete request; otherwise, in
        one transaction, inserts the session and then, allocation by
        allocation, its log row, the hours and the new status. An
        incomplete allocation rolls all of it back. */
    method LogWork(req: WorkRequest, parse: string -> Parsed) returns (resp: Response)
      requires Valid()
      modifies this
      ensures Valid()
      ensures nextDemandId == old(nextDemandId)
      ensures !RequestGiven(req) ==> resp == Invalid(INCOMPLETE_DATA) && unchanged(this)
      ensures RequestGiven(req) && StartOf(req, parse).Unparsable? ==>
                resp == ServerError(SERVER_ERROR + StartOf(req, parse).reason) && unchanged(this)
      ensures RequestGiven(req) && StartOf(req, parse).At? && EndOf(req, parse).Unparsable? ==>
                resp == ServerError(SERVER_ERROR + EndOf(req, parse).reason) && unchanged(this)
      ensures RequestGiven(req) && StartOf(req, parse).At? && EndOf(req, parse).At? && !AllComplete(req.allocations.value) ==>
                resp == ServerError(SERVER_ERROR + INCOMPLETE_ALLOCATION) && unchanged(this)
      ensures RequestGiven(req) && StartOf(req, parse).At? && EndOf(req, parse).At? && AllComplete(req.allocations.value) ==>
                && resp == Ok(WORK_SAVED)
                && sessions == old(sessions) + [WorkSession(old(nextSessionId), StartOf(req, parse).time,
                                                            EndOf(req, parse).time, req.totalMinutes.value)]
                && logs == old(logs) + LogRows(old(nextSessionId), req.allocations.value)
                && demands == BookAll(old(demands), req.allocations.value)
                && nextSessionId == old(nextSessionId) + 1
    {
      if !RequestGiven(req) {
        return Invalid(INCOMPLETE_DATA);
      }
      var startText := NormalizeZulu(req.startTime.value);
      var endText := NormalizeZulu(req.endTime.value);
      var start := parse(startText);
      if start.Unparsable? {
        return ServerError(SERVER_ERROR + start.reason);
      }
      var end := parse(endText);
      if end.Unparsable? {
        return ServerError(SERVER_ERROR + end.reason);
      }
      var allocs := req.allocations.value;
      var saved, savedSessions, savedLogs, savedNext := demands, sessions, logs, nextSessionId;
      var sid := nextSessionId;
      var session := WorkSession(sid, start.time, end.time, req.totalMinutes.value);
      sessions := sessions + [session];
      nextSessionId := nextSessionId + 1;
      var posted := PostAllocations(sid, allocs);
      if !posted {
        // the KeyError aborts the transaction: everything is rolled back
        demands, sessions, logs, nextSessionId := saved, savedSessions, savedLogs, savedNext;
        return ServerError(SERVER_ERROR + INCOMPLETE_ALLOCATION);
      }
      SessionCommitted(saved, savedSessions, savedLogs, nextDemandId, sid, demands, session, LogRows(sid, allocs));
      resp := Ok(WORK_SAVED);
    }

    /** The allocation loop of a session, in order; stops at the first
        incomplete allocation (reporting false), leaving the rows written
        before it for the caller to roll back. */
    method PostAllocations(sid: SessionId, allocs: seq<Allocation>) returns (posted: bool)
      modifies this`demands, this`logs
      ensures posted <==> AllComplete(allocs)
      ensures posted ==> demands == BookAll(old(demands), allocs) && logs == old(logs) + LogRows(sid, allocs)
    {
      var i := 0;
      while i < |allocs|
        invariant 0 <= i <= |allocs|
        invariant AllComplete(allocs[..i])
        invariant demands == BookAll(old(demands), allocs[..i])
        invariant logs == old(logs) + LogRows(sid, allocs[..i])
      {
        var a := allocs[i];
        if !Complete(a) {
          return false;
        }
        PostAllocation(sid, a);
        PrefixComplete(allocs, i);
        BookAllStep(old(demands), allocs, i);
        LogRowsStep(sid, allocs, i);
        i := i + 1;
      }
      assert allocs[..|allocs|] == allocs;
      posted := true;
    }

    /** One allocation of a session: its log row, then the UPDATEs of the
        demand it names. */
    method PostAllocation(sid: SessionId, a: Allocation)
      requires Complete(a)
      modifies this`demands, this`logs
      ensures demands == BookOne(old(demands), a) && logs == old(logs) + [LogRow(sid, a)]
    {
      logs := logs + [LogRow(sid, a)];
      var key := Target(a);
      if key.Some? && key.value in demands {
        var d := demands[key.value];
        demands := demands[key.value := d.(executedHours := d.executedHours + Hours(a.minutesSpent.value))];
        if TextGiven(a.newStatus) {
          demands := demands[key.value := demands[key.value].(status := a.newStatus.value)];
        }
      }
    }
  }

  /** The creation flow: on an empty store, two demands are created, each
      ranked after the ones before it. */
  method CreateTwice()
  {
    var s := new Store();
    var out := s.SaveDemand(DemandForm(Some(""), Some("Demanda 1"), None, Some(QUEUED), Some("10")), 1);
    assert out == Created(1) && s.demands[1].priority == 0;
    out := s.SaveDemand(DemandForm(Some("0"), Some("Demanda 2"), None, Some(IN_PROGRESS), None), 2);
    assert out == Created(2) && s.demands[2].priority - 1 == 0;
  }

  /** The creation test: when the highest rank is 5 the new demand is
      ranked 6. */
  method CreateAfterFive(s: Store)
    requires s.Valid() && IsTopPriority(s.demands, 5)
    modifies s
  {
    var old5 := s.demands;
    var out := s.SaveDemand(DemandForm(Some(""), Some("Nova Demanda de Teste"), Some("Descricao da nova demanda."),
                                       Some(QUEUED), Some("10")), 1);
    assert out.Created?;
    TopPriorityUnique(old5, 5, s.demands[out.newId].priority - 1);
    assert s.demands[out.newId].priority == 6;
    assert s.demands[out.newId].estimatedHours == Some("10");
  }

  /** The create-then-prioritize flow: the new demand's id, rendered as
      the prioritization page shows it and sent back alone in
      `ordered_ids`, ranks that demand first. */
  method CreateThenRank(s: Store)
    requires s.Valid()
    modifies s
  {
    var out := s.SaveDemand(DemandForm(None, Some("Nova Demanda"), None, Some(QUEUED), None), 1);
    assert out.Created? && out.newId >= 1;
    var id: nat := out.newId;
    ParseNumeral(id);
    var items := [Text(Numeral(id))];
    assert Binds(items[0]) && ItemKey(items[0]) == Some(id);
    var resp := s.UpdatePriorities(IdList(items));
    assert resp == Ok(PRIORITIES_UPDATED);
    assert s.demands[id].priority == 0;
  }

  /** The reordering flow: the list `["2", "1"]` ranks demand 2 first and
      demand 1 second. */
  method ReorderTwo(s: Store)
    requires s.Valid() && 1 in s.demands && 2 in s.demands
    modifies s
  {
    var items := [Text("2"), Text("1")];
    assert ItemKey(items[0]) == Some(2) && ItemKey(items[1]) == Some(1);
    var resp := s.UpdatePriorities(IdList(items));
    assert resp == Ok(PRIORITIES_UPDATED);
    assert s.demands[2].priority == 0 && s.demands[1].priority == 1;
  }

  /** The tracker flow: a session that closes demand 1 takes it off the
      pending list. */
  method LogThenList(s: Store)
    requires s.Valid() && 1 in s.demands
    modifies s
  {
    var a := Allocation(Some("1"), Some(40), Some("Trabalhei na demanda 1"), Some("Concluída"));
    assert Target(a) == Some(1) && [a][..0] == [];
    var req := WorkRequest(Some("2025-01-01T10:00:00Z"), Some("2025-01-01T11:00:00Z"), Some(60), Some([a]));
    var parse := (t: string) => At(|t|);
    assert RequestGiven(req) && StartOf(req, parse).At? && EndOf(req, parse).At? && AllComplete([a]);
    ghost var before := s.demands;
    var resp := s.LogWork(req, parse);
    assert resp == Ok(WORK_SAVED) && s.demands == BookOne(before, a);
    assert s.demands[1].status == "Concluída";
    assert s.demands[1].executedHours == before[1].executedHours + 40.0 / 60.0;
    var pending := s.PendingDemands();
    ViewMembers(s.demands, PendingOnly, ByPriority, pending, 1);
    assert 1 !in pending;
  }
}
