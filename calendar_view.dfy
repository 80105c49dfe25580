/**
 * The calendar page of script.js: `getEventsForDate`, which merges six event
 * sources for one day, and the 42-cell month grid of `renderMonthView` with
 * its holiday, weekend and alternating-week markings.
 *
 * Record dates are taken as already parsed and reduced to their `YYYY-MM-DD` text (the result
 * of `new Date(x).toISOString().split('T')[0]`); falsy dates are `None`.
 */
module CalendarView {
  import opened Base
  import opened CalendarDates

  /** JavaScript truthiness of an optional string: `undefined`, `null` and "" are falsy. */
  predicate Truthy(s: Option<string>)
  {
    s.Some? && s.value != ""
  }

  /**
   * The `type` texts events and schedules carry. The five source types, the
   * eleven schedule types of the filter whitelist, 'other', and any other text
   * as `Unlisted` (whose name is none of the listed ones).
   */
  datatype EventType =
    | MaintenanceType | RepairType | TicketType | HolidayType | WeekendType
    | Vacation | Sick | Training | Meeting | MachineArrival | MaintenancePreventive
    | Audit | EquipmentTest | Inspection | Installation | RepairScheduled
    | OtherType
    | Unlisted(name: UnlistedName)

  /** The type texts that have a constructor of their own. */
  const LISTED_NAMES: set<string> :=
    {"maintenance", "repair", "ticket", "holiday", "weekend", "vacation", "sick", "training", "meeting",
     "machine_arrival", "maintenance_preventive", "audit", "equipment_test", "inspection", "installation",
     "repair_scheduled", "other"}

  /** A type text with no constructor of its own, so every text has exactly one `EventType`. */
  type UnlistedName = s: string | s !in LISTED_NAMES witness ""

  /** The text of a type, as used for the event's `color` and `priority` classes. */
  function TypeName(t: EventType): string
  {
    match t
    case MaintenanceType => "maintenance"
    case RepairType => "repair"
    case TicketType => "ticket"
    case HolidayType => "holiday"
    case WeekendType => "weekend"
    case Vacation => "vacation"
    case Sick => "sick"
    case Training => "training"
    case Meeting => "meeting"
    case MachineArrival => "machine_arrival"
    case MaintenancePreventive => "maintenance_preventive"
    case Audit => "audit"
    case EquipmentTest => "equipment_test"
    case Inspection => "inspection"
    case Installation => "installation"
    case RepairScheduled => "repair_scheduled"
    case OtherType => "other"
    case Unlisted(name) => name
  }

  /** Each text names one type only. */
  lemma TypeNameInjective(a: EventType, b: EventType)
    requires TypeName(a) == TypeName(b)
    ensures a == b
  {
  }

  /** The event-type filter: 'all' or one type. */
  datatype Filter = AllEvents | OnlyEvents(t: FilterType)

  /** A type a filter can select: the text 'all' reads as "every type" instead. */
  type FilterType = t: EventType | !(t.Unlisted? && t.name == "all") witness OtherType

  /** The user filter: 'all' or one id, compared with `===`. */
  datatype UserFilter = AllUsers | OnlyUser(id: SelectedId)

  /** An id a user filter can select: the text 'all' reads as "every user" instead. */
  type SelectedId = id: JsId | id != Str("all") witness Num(0)

  datatype Maintenance = Maintenance(
    scheduledDay: Option<string>, machineName: string, description: Option<string>,
    assignedTechnician: Option<JsId>, priority: Option<string>)

  datatype Repair = Repair(
    day: Option<string>, machineName: string, description: Option<string>,
    technicianId: Option<JsId>, priority: Option<string>)

  /** A ticket's due date: its day text and its instant, for the overdue test. */
  datatype Deadline = Deadline(day: string, instant: int)

  datatype Ticket = Ticket(
    expected: Option<Deadline>, title: string, ticketNumber: string,
    assigneeId: Option<JsId>, priority: Option<string>)

  datatype Holiday = Holiday(date: string, name: string)

  datatype Schedule = Schedule(
    date: string, userId: Option<JsId>, stype: EventType, description: Option<string>,
    startTime: Option<string>, endTime: Option<string>)

  datatype User = User(id: JsId, name: string, employeeType: Option<string>)

  datatype Event = Event(
    etype: EventType, title: string, description: Option<string>, color: string,
    priority: Option<string>, userColor: Option<string>, userId: Option<JsId>,
    startTime: Option<string>, endTime: Option<string>, overdue: Option<bool>)

  /**
   * The day `getEventsForDate` is asked about: its date text, its `getDay()`,
   * the user filter, and the current instant for the overdue test.
   */
  datatype Query = Query(dateStr: string, dayOfWeek: int, user: UserFilter, now: int)

  /** `eventType === 'all' || eventType === t`. */
  predicate Admits(f: Filter, t: EventType)
  {
    f.AllEvents? || f.t == t
  }

  /** `userId === 'all' || field === userId`. */
  predicate ForUser(q: Query, field: Option<JsId>)
  {
    q.user.AllUsers? || var sel: JsId := q.user.id; field == Some(sel)
  }

  // ---------------------------------------------------------------------------
  // One event per matching record, in collection order
  // ---------------------------------------------------------------------------

  function MaintenanceEvent(m: Maintenance): Event
  {
    Event(MaintenanceType, "Maintenance: " + m.machineName, m.description, "maintenance",
          Some(if Truthy(m.priority) then m.priority.value else "medium"), None, None, None, None, None)
  }

  predicate MaintenanceMatches(m: Maintenance, q: Query)
  {
    Truthy(m.scheduledDay) && m.scheduledDay.value == q.dateStr && ForUser(q, m.assignedTechnician)
  }

  function MaintenanceEvents(ms: seq<Maintenance>, q: Query): seq<Event>
    decreases |ms|
  {
    if ms == [] then []
    else
      var m := ms[|ms| - 1];
      MaintenanceEvents(ms[..|ms| - 1], q) + (if MaintenanceMatches(m, q) then [MaintenanceEvent(m)] else [])
  }

  function RepairEvent(r: Repair): Event
  {
    Event(RepairType, "Réparation: " + r.machineName, r.description, "repair", r.priority, None, None, None, None, None)
  }

  predicate RepairMatches(r: Repair, q: Query)
  {
    Truthy(r.day) && r.day.value == q.dateStr && ForUser(q, r.technicianId)
  }

  function RepairEvents(rs: seq<Repair>, q: Query): seq<Event>
    decreases |rs|
  {
    if rs == [] then []
    else
      var r := rs[|rs| - 1];
      RepairEvents(rs[..|rs| - 1], q) + (if RepairMatches(r, q) then [RepairEvent(r)] else [])
  }

  function TicketEvent(t: Ticket, now: int): Event
    requires t.expected.Some?
  {
    Event(TicketType, "Ticket: " + t.title, Some("Échéance: " + t.ticketNumber),
          if t.priority == Some("urgent") then "urgent" else "ticket",
          t.priority, None, None, None, None, Some(t.expected.value.instant < now))
  }

  predicate TicketMatches(t: Ticket, q: Query)
  {
    t.expected.Some? && t.expected.value.day == q.dateStr && ForUser(q, t.assigneeId)
  }

  function TicketEvents(ts: seq<Ticket>, q: Query): seq<Event>
    decreases |ts|
  {
    if ts == [] then []
    else
      var t := ts[|ts| - 1];
      TicketEvents(ts[..|ts| - 1], q) + (if TicketMatches(t, q) then [TicketEvent(t, q.now)] else [])
  }

  function HolidayEvent(h: Holiday): Event
  {
    Event(HolidayType, h.name, Some("Jour férié"), "holiday", Some("holiday"), None, None, None, None, None)
  }

  /** Holidays are matched on the date alone: the user filter does not apply. */
  function HolidayEvents(hs: seq<Holiday>, q: Query): seq<Event>
    decreases |hs|
  {
    if hs == [] then []
    else
      var h := hs[|hs| - 1];
      HolidayEvents(hs[..|hs| - 1], q) + (if h.date == q.dateStr then [HolidayEvent(h)] else [])
  }

  function WeekendEvents(q: Query, f: Filter): seq<Event>
  {
    if Admits(f, WeekendType) && (q.dayOfWeek == 0 || q.dayOfWeek == 6) then
      [Event(WeekendType, if q.dayOfWeek == 0 then "Dimanche" else "Samedi", Some("Weekend"), "weekend",
             Some("weekend"), None, None, None, None, None)]
    else []
  }

  /** The schedule types of the filter whitelist: every schedule type except 'other'. */
  predicate IsScheduleType(t: EventType)
  {
    t.Vacation? || t.Sick? || t.Training? || t.Meeting? || t.MachineArrival? || t.MaintenancePreventive?
    || t.Audit? || t.EquipmentTest? || t.Inspection? || t.Installation? || t.RepairScheduled?
  }

  /** The types the planning form offers: the whitelist plus 'other'. */
  predicate IsScheduleKind(t: EventType)
  {
    IsScheduleType(t) || t.OtherType?
  }

  /** The title label of each schedule type; `None` falls back to "Événement". */
  function TypeLabel(t: EventType): Option<string>
  {
    match t
    case Vacation => Some("Congés")
    case Sick => Some("Arrêt maladie")
    case Training => Some("Formation")
    case Meeting => Some("Réunion")
    case MachineArrival => Some("Arrivage Machine")
    case MaintenancePreventive => Some("Maintenance Préventive")
    case Audit => Some("Audit")
    case EquipmentTest => Some("Test Équipement")
    case Inspection => Some("Inspection")
    case Installation => Some("Installation")
    case RepairScheduled => Some("Réparation Programmée")
    case OtherType => Some("Autre")
    case _ => None
  }

  /** `users.find(u => u.id === id)`: the first user with that id. */
  function FindUser(users: seq<User>, id: Option<JsId>): (r: Option<User>)
    ensures r.Some? ==> r.value in users && id == Some(r.value.id)
    ensures r.Some? ==> exists k :: 0 <= k < |users| && users[k] == r.value
                                    && forall j :: 0 <= j < k ==> id != Some(users[j].id)
    ensures r.None? ==> forall u :: u in users ==> id != Some(u.id)
    decreases |users|
  {
    if users == [] then None
    else if id == Some(users[0].id) then Some(users[0])
    else
      var rest := FindUser(users[1..], id);
      if rest.Some? then
        var k :| 0 <= k < |users[1..]| && users[1..][k] == rest.value
                 && forall j :: 0 <= j < k ==> id != Some(users[1..][j].id);
        assert users[k + 1] == rest.value;
        rest
      else rest
  }

  /** The per-user colour: four fixed numeric ids, grey for everyone else. */
  function UserColor(id: Option<JsId>): string
  {
    match id
    case Some(Num(1)) => "#3b82f6"
    case Some(Num(2)) => "#10b981"
    case Some(Num(3)) => "#8b5cf6"
    case Some(Num(4)) => "#f59e0b"
    case _ => "#6b7280"
  }

  function ScheduleTitle(s: Schedule, users: seq<User>): string
  {
    var kind := if TypeLabel(s.stype).Some? then TypeLabel(s.stype).value else "Événement";
    var user := FindUser(users, s.userId);
    var who := if user.Some? then user.value.name else "Utilisateur";
    var times := if Truthy(s.startTime) && Truthy(s.endTime)
                 then " (" + s.startTime.value + "-" + s.endTime.value + ")" else "";
    kind + ": " + who + times
  }

  function ScheduleEvent(s: Schedule, users: seq<User>): Event
  {
    Event(s.stype, ScheduleTitle(s, users), s.description, TypeName(s.stype), Some(TypeName(s.stype)),
          Some(UserColor(s.userId)), s.userId, s.startTime, s.endTime, None)
  }

  predicate ScheduleMatches(s: Schedule, q: Query, f: Filter)
  {
    s.date == q.dateStr && ForUser(q, s.userId) && Admits(f, s.stype)
  }

  function ScheduleEvents(ss: seq<Schedule>, users: seq<User>, q: Query, f: Filter): seq<Event>
    decreases |ss|
  {
    if ss == [] then []
    else
      var s := ss[|ss| - 1];
      ScheduleEvents(ss[..|ss| - 1], users, q, f) + (if ScheduleMatches(s, q, f) then [ScheduleEvent(s, users)] else [])
  }

  /** The collections `getEventsForDate` reads. */
  datatype Sources = Sources(
    maintenances: seq<Maintenance>, repairs: seq<Repair>, tickets: seq<Ticket>,
    holidays: seq<Holiday>, schedules: seq<Schedule>, users: seq<User>)

  /** A source's events when its filter admits it, nothing otherwise. */
  function Gate(admitted: bool, events: seq<Event>): seq<Event>
  {
    if admitted then events else []
  }

  /** Whether the schedules are scanned at all: 'all' or a whitelisted type. */
  predicate SchedulesWanted(f: Filter)
  {
    f.AllEvents? || IsScheduleType(f.t)
  }

  /** The day's events, source by source in the script's fixed order. */
  function EventsForDate(src: Sources, q: Query, f: Filter): seq<Event>
  {
    Gate(Admits(f, MaintenanceType), MaintenanceEvents(src.maintenances, q))
    + Gate(Admits(f, RepairType), RepairEvents(src.repairs, q))
    + Gate(Admits(f, TicketType), TicketEvents(src.tickets, q))
    + (Gate(Admits(f, HolidayType), HolidayEvents(src.holidays, q)) + WeekendEvents(q, f))
    + Gate(SchedulesWanted(f), ScheduleEvents(src.schedules, src.users, q, f))
  }

  /** `getEventsForDate` (script.js:3534-3682): one pass per source, pushing in order. */
  method GetEventsForDate(src: Sources, q: Query, f: Filter) returns (events: seq<Event>)
    ensures events == EventsForDate(src, q, f)
  {
    var ms: seq<Event> := [];
    if Admits(f, MaintenanceType) {
      ms := PushMaintenances(src.maintenances, q);
    }
    var rs: seq<Event> := [];
    if Admits(f, RepairType) {
      rs := PushRepairs(src.repairs, q);
    }
    var ts: seq<Event> := [];
    if Admits(f, TicketType) {
      ts := PushTickets(src.tickets, q);
    }
    var hs: seq<Event> := [];
    if Admits(f, HolidayType) {
      hs := PushHolidays(src.holidays, q);
    }
    var ss: seq<Event> := [];
    if SchedulesWanted(f) {
      ss := PushSchedules(src.schedules, src.users, q, f);
    }
    events := ms + rs + ts + (hs + WeekendEvents(q, f)) + ss;
  }

  method PushMaintenances(ms: seq<Maintenance>, q: Query) returns (events: seq<Event>)
    ensures events == MaintenanceEvents(ms, q)
  {
    events := [];
    var i := 0;
    while i < |ms|
      invariant 0 <= i <= |ms|
      invariant events == MaintenanceEvents(ms[..i], q)
    {
      var m := ms[i];
      if Truthy(m.scheduledDay) && m.scheduledDay.value == q.dateStr && ForUser(q, m.assignedTechnician) {
        events := events + [MaintenanceEvent(m)];
      }
      assert ms[..i + 1][..i] == ms[..i];
      i := i + 1;
    }
    assert ms[..i] == ms;
  }

  method PushRepairs(rs: seq<Repair>, q: Query) returns (events: seq<Event>)
    ensures events == RepairEvents(rs, q)
  {
    events := [];
    var i := 0;
    while i < |rs|
      invariant 0 <= i <= |rs|
      invariant events == RepairEvents(rs[..i], q)
    {
      var r := rs[i];
      if Truthy(r.day) && r.day.value == q.dateStr && ForUser(q, r.technicianId) {
        events := events + [RepairEvent(r)];
      }
      assert rs[..i + 1][..i] == rs[..i];
      i := i + 1;
    }
    assert rs[..i] == rs;
  }

  method PushTickets(ts: seq<Ticket>, q: Query) returns (events: seq<Event>)
    ensures events == TicketEvents(ts, q)
  {
    events := [];
    var i := 0;
    while i < |ts|
      invariant 0 <= i <= |ts|
      invariant events == TicketEvents(ts[..i], q)
    {
      var t := ts[i];
      if t.expected.Some? && t.expected.value.day == q.dateStr && ForUser(q, t.assigneeId) {
        events := events + [TicketEvent(t, q.now)];
      }
      assert ts[..i + 1][..i] == ts[..i];
      i := i + 1;
    }
    assert ts[..i] == ts;
  }

  method PushHolidays(hs: seq<Holiday>, q: Query) returns (events: seq<Event>)
    ensures events == HolidayEvents(hs, q)
  {
    events := [];
    var i := 0;
    while i < |hs|
      invariant 0 <= i <= |hs|
      invariant events == HolidayEvents(hs[..i], q)
    {
      var h := hs[i];
      if h.date == q.dateStr {
        events := events + [HolidayEvent(h)];
      }
      assert hs[..i + 1][..i] == hs[..i];
      i := i + 1;
    }
    assert hs[..i] == hs;
  }

  method PushSchedules(ss: seq<Schedule>, users: seq<User>, q: Query, f: Filter) returns (events: seq<Event>)
    ensures events == ScheduleEvents(ss, users, q, f)
  {
    events := [];
    var i := 0;
    while i < |ss|
      invariant 0 <= i <= |ss|
      invariant events == ScheduleEvents(ss[..i], users, q, f)
    {
      var s := ss[i];
      if s.date == q.dateStr && ForUser(q, s.userId) && Admits(f, s.stype) {
        events := events + [ScheduleEvent(s, users)];
      }
      assert ss[..i + 1][..i] == ss[..i];
      i := i + 1;
    }
    assert ss[..i] == ss;
  }

  // ---------------------------------------------------------------------------
  // Properties of the aggregation
  // ---------------------------------------------------------------------------

  /** A weekend event appears exactly on Saturdays and Sundays, titled after the day. */
  lemma WeekendEventIff(q: Query, f: Filter)
    requires Admits(f, WeekendType)
    ensures |WeekendEvents(q, f)| == (if q.dayOfWeek == 0 || q.dayOfWeek == 6 then 1 else 0)
    ensures q.dayOfWeek == 0 ==> WeekendEvents(q, f)[0].title == "Dimanche"
    ensures q.dayOfWeek == 6 ==> WeekendEvents(q, f)[0].title == "Samedi"
  {
  }

  /** Narrowing the user filter only removes events: every event shown for one user is shown for "all". */
  lemma UserFilterOnlyRemoves(src: Sources, q: Query, f: Filter)
    ensures multiset(EventsForDate(src, q, f)) <= multiset(EventsForDate(src, q.(user := AllUsers), f))
  {
    var qa := q.(user := AllUsers);
    var a1 := Gate(Admits(f, MaintenanceType), MaintenanceEvents(src.maintenances, q));
    var a2 := Gate(Admits(f, MaintenanceType), MaintenanceEvents(src.maintenances, qa));
    var b1 := Gate(Admits(f, RepairType), RepairEvents(src.repairs, q));
    var b2 := Gate(Admits(f, RepairType), RepairEvents(src.repairs, qa));
    var c1 := Gate(Admits(f, TicketType), TicketEvents(src.tickets, q));
    var c2 := Gate(Admits(f, TicketType), TicketEvents(src.tickets, qa));
    var d := Gate(Admits(f, HolidayType), HolidayEvents(src.holidays, q)) + WeekendEvents(q, f);
    var e1 := Gate(SchedulesWanted(f), ScheduleEvents(src.schedules, src.users, q, f));
    var e2 := Gate(SchedulesWanted(f), ScheduleEvents(src.schedules, src.users, qa, f));
    assert multiset(a1) <= multiset(a2) by {
      MaintenanceSubset(src.maintenances, q);
    }
    assert multiset(b1) <= multiset(b2) by {
      RepairSubset(src.repairs, q);
    }
    assert multiset(c1) <= multiset(c2) by {
      TicketSubset(src.tickets, q);
    }
    assert multiset(e1) <= multiset(e2) by {
      ScheduleSubset(src.schedules, src.users, q, f);
    }
    assert d == Gate(Admits(f, HolidayType), HolidayEvents(src.holidays, qa)) + WeekendEvents(qa, f) by {
      HolidaysIgnoreUser(src.holidays, q, qa);
    }
    ConcatSubset(a1, b1, c1, d, e1, a2, b2, c2, e2);
  }

  lemma ConcatSubset(a1: seq<Event>, b1: seq<Event>, c1: seq<Event>, d: seq<Event>, e1: seq<Event>,
                     a2: seq<Event>, b2: seq<Event>, c2: seq<Event>, e2: seq<Event>)
    requires multiset(a1) <= multiset(a2) && multiset(b1) <= multiset(b2)
    requires multiset(c1) <= multiset(c2) && multiset(e1) <= multiset(e2)
    ensures multiset(a1 + b1 + c1 + d + e1) <= multiset(a2 + b2 + c2 + d + e2)
  {
  }

  lemma {:induction false} MaintenanceSubset(ms: seq<Maintenance>, q: Query)
    ensures multiset(MaintenanceEvents(ms, q)) <= multiset(MaintenanceEvents(ms, q.(user := AllUsers)))
    decreases |ms|
  {
    if ms != [] { MaintenanceSubset(ms[..|ms| - 1], q); }
  }

  lemma {:induction false} RepairSubset(rs: seq<Repair>, q: Query)
    ensures multiset(RepairEvents(rs, q)) <= multiset(RepairEvents(rs, q.(user := AllUsers)))
    decreases |rs|
  {
    if rs != [] { RepairSubset(rs[..|rs| - 1], q); }
  }

  lemma {:induction false} TicketSubset(ts: seq<Ticket>, q: Query)
    ensures multiset(TicketEvents(ts, q)) <= multiset(TicketEvents(ts, q.(user := AllUsers)))
    decreases |ts|
  {
    if ts != [] { TicketSubset(ts[..|ts| - 1], q); }
  }

  lemma {:induction false} ScheduleSubset(ss: seq<Schedule>, users: seq<User>, q: Query, f: Filter)
    ensures multiset(ScheduleEvents(ss, users, q, f)) <= multiset(ScheduleEvents(ss, users, q.(user := AllUsers), f))
    decreases |ss|
  {
    if ss != [] { ScheduleSubset(ss[..|ss| - 1], users, q, f); }
  }

  /** Holiday events do not depend on the user filter. */
  lemma {:induction false} HolidaysIgnoreUser(hs: seq<Holiday>, q1: Query, q2: Query)
    requires q1.dateStr == q2.dateStr
    ensures HolidayEvents(hs, q1) == HolidayEvents(hs, q2)
    decreases |hs|
  {
    if hs != [] { HolidaysIgnoreUser(hs[..|hs| - 1], q1, q2); }
  }

  /**
   * The user filter holds the text of the selected option while the records
   * carry numeric ids, and `===` never equates the two: with a user selected,
   * records whose id is a number produce no maintenance, repair, ticket or
   * schedule event.
   */
  lemma SelectedUserMissesNumericIds(src: Sources, q: Query, f: Filter, e: Event)
    requires q.user.OnlyUser? && q.user.id.Str?
    requires forall m :: m in src.maintenances ==> m.assignedTechnician.None? || m.assignedTechnician.value.Num?
    requires forall r :: r in src.repairs ==> r.technicianId.None? || r.technicianId.value.Num?
    requires forall t :: t in src.tickets ==> t.assigneeId.None? || t.assigneeId.value.Num?
    requires forall s :: s in src.schedules ==> s.userId.None? || s.userId.value.Num?
    requires e in EventsForDate(src, q, f)
    ensures e.etype == HolidayType || e.etype == WeekendType
  {
    assert MaintenanceEvents(src.maintenances, q) == [] by { NoMaintenanceMatch(src.maintenances, q); }
    assert RepairEvents(src.repairs, q) == [] by { NoRepairMatch(src.repairs, q); }
    assert TicketEvents(src.tickets, q) == [] by { NoTicketMatch(src.tickets, q); }
    assert ScheduleEvents(src.schedules, src.users, q, f) == [] by { NoScheduleMatch(src.schedules, src.users, q, f); }
    HolidayTypes(src.holidays, q);
  }

  lemma {:induction false} NoMaintenanceMatch(ms: seq<Maintenance>, q: Query)
    requires q.user.OnlyUser? && q.user.id.Str?
    requires forall m :: m in ms ==> m.assignedTechnician.None? || m.assignedTechnician.value.Num?
    ensures MaintenanceEvents(ms, q) == []
    decreases |ms|
  {
    if ms != [] {
      assert ms[|ms| - 1] in ms;
      NoMaintenanceMatch(ms[..|ms| - 1], q);
    }
  }

  lemma {:induction false} NoRepairMatch(rs: seq<Repair>, q: Query)
    requires q.user.OnlyUser? && q.user.id.Str?
    requires forall r :: r in rs ==> r.technicianId.None? || r.technicianId.value.Num?
    ensures RepairEvents(rs, q) == []
    decreases |rs|
  {
    if rs != [] {
      assert rs[|rs| - 1] in rs;
      NoRepairMatch(rs[..|rs| - 1], q);
    }
  }

  lemma {:induction false} NoTicketMatch(ts: seq<Ticket>, q: Query)
    requires q.user.OnlyUser? && q.user.id.Str?
    requires forall t :: t in ts ==> t.assigneeId.None? || t.assigneeId.value.Num?
    ensures TicketEvents(ts, q) == []
    decreases |ts|
  {
    if ts != [] {
      assert ts[|ts| - 1] in ts;
      NoTicketMatch(ts[..|ts| - 1], q);
    }
  }

  lemma {:induction false} NoScheduleMatch(ss: seq<Schedule>, users: seq<User>, q: Query, f: Filter)
    requires q.user.OnlyUser? && q.user.id.Str?
    requires forall s :: s in ss ==> s.userId.None? || s.userId.value.Num?
    ensures ScheduleEvents(ss, users, q, f) == []
    decreases |ss|
  {
    if ss != [] {
      assert ss[|ss| - 1] in ss;
      NoScheduleMatch(ss[..|ss| - 1], users, q, f);
    }
  }

  // ---------------------------------------------------------------------------
  // The type filter
  // ---------------------------------------------------------------------------

  /** The events of one type, in order. */
  function OfType(t: EventType, es: seq<Event>): seq<Event>
    decreases |es|
  {
    if es == [] then []
    else OfType(t, es[..|es| - 1]) + (if es[|es| - 1].etype == t then [es[|es| - 1]] else [])
  }

  /** `OfType` keeps exactly the events of type `t`. */
  lemma {:induction false} OfTypeMembers(t: EventType, es: seq<Event>)
    ensures forall e :: e in OfType(t, es) <==> e in es && e.etype == t
    decreases |es|
  {
    if es != [] {
      OfTypeMembers(t, es[..|es| - 1]);
      assert es == es[..|es| - 1] + [es[|es| - 1]];
    }
  }

  lemma {:induction false} OfTypeConcat(t: EventType, xs: seq<Event>, ys: seq<Event>)
    ensures OfType(t, xs + ys) == OfType(t, xs) + OfType(t, ys)
    decreases |ys|
  {
    if ys == [] {
      assert xs + ys == xs;
    } else {
      assert (xs + ys)[..|xs + ys| - 1] == xs + ys[..|ys| - 1];
      OfTypeConcat(t, xs, ys[..|ys| - 1]);
    }
  }

  /** A block whose events all have type `t` is kept whole. */
  lemma {:induction false} OfTypeAll(t: EventType, es: seq<Event>)
    requires forall e :: e in es ==> e.etype == t
    ensures OfType(t, es) == es
    decreases |es|
  {
    if es != [] {
      assert es[|es| - 1] in es;
      OfTypeAll(t, es[..|es| - 1]);
      assert es[..|es| - 1] + [es[|es| - 1]] == es;
    }
  }

  /** A block with no event of type `t` is dropped. */
  lemma {:induction false} OfTypeNone(t: EventType, es: seq<Event>)
    requires forall e :: e in es ==> e.etype != t
    ensures OfType(t, es) == []
    decreases |es|
  {
    if es != [] {
      assert es[|es| - 1] in es;
      OfTypeNone(t, es[..|es| - 1]);
    }
  }

  /** A block whose events all have type `u` is kept whole by its own type and dropped by any other. */
  lemma OfTypeUniform(t: EventType, u: EventType, es: seq<Event>)
    requires forall e :: e in es ==> e.etype == u
    ensures OfType(t, es) == if t == u then es else []
  {
    if t == u { OfTypeAll(t, es); } else { OfTypeNone(t, es); }
  }

  /** Under 'all', keeping the schedules of one type gives the schedules that type's filter admits. */
  lemma {:induction false} ScheduleOfType(ss: seq<Schedule>, users: seq<User>, q: Query, t: FilterType)
    ensures OfType(t, ScheduleEvents(ss, users, q, AllEvents)) == ScheduleEvents(ss, users, q, OnlyEvents(t))
    decreases |ss|
  {
    if ss != [] {
      var init := ss[..|ss| - 1];
      var s := ss[|ss| - 1];
      ScheduleOfType(init, users, q, t);
      OfTypeConcat(t, ScheduleEvents(init, users, q, AllEvents),
                   if ScheduleMatches(s, q, AllEvents) then [ScheduleEvent(s, users)] else []);
    }
  }

  /**
   * With a type filter other than "all", every event returned has exactly that type.
   */
  lemma TypeFilterIsExact(src: Sources, q: Query, t: FilterType)
    ensures forall e :: e in EventsForDate(src, q, OnlyEvents(t)) ==> e.etype == t
  {
    MaintenanceTypes(src.maintenances, q);
    RepairTypes(src.repairs, q);
    TicketTypes(src.tickets, q);
    HolidayTypes(src.holidays, q);
    ScheduleTypes(src.schedules, src.users, q, t);
  }

  /**
   * Choosing a listed type in the filter shows exactly the events of that type
   * that 'all' shows, in the same order, provided every schedule has a type
   * the planning form offers.
   */
  lemma TypeFilterSelects(src: Sources, q: Query, t: EventType)
    requires !t.OtherType? && !t.Unlisted?
    requires forall s :: s in src.schedules ==> IsScheduleKind(s.stype)
    ensures EventsForDate(src, q, OnlyEvents(t)) == OfType(t, EventsForDate(src, q, AllEvents))
  {
    var a := MaintenanceEvents(src.maintenances, q);
    var b := RepairEvents(src.repairs, q);
    var c := TicketEvents(src.tickets, q);
    var h := HolidayEvents(src.holidays, q);
    var w := WeekendEvents(q, AllEvents);
    var e := ScheduleEvents(src.schedules, src.users, q, AllEvents);
    assert EventsForDate(src, q, AllEvents) == a + b + c + (h + w) + e;
    OfTypeOfParts(t, a, b, c, h, w, e);
    FixedSourcesFiltered(src, q, t);
    SchedulesFiltered(src, q, t);
  }

  /** `OfType` distributes over the day's six parts. */
  lemma OfTypeOfParts(t: EventType, a: seq<Event>, b: seq<Event>, c: seq<Event>, h: seq<Event>, w: seq<Event>,
                      e: seq<Event>)
    ensures OfType(t, a + b + c + (h + w) + e)
            == OfType(t, a) + OfType(t, b) + OfType(t, c) + (OfType(t, h) + OfType(t, w)) + OfType(t, e)
  {
    OfTypeConcat(t, a + b + c + (h + w), e);
    OfTypeConcat(t, a + b + c, h + w);
    OfTypeConcat(t, h, w);
    OfTypeConcat(t, a + b, c);
    OfTypeConcat(t, a, b);
  }

  /** Keeping one type of a fixed source is that source's gate under the type's filter. */
  lemma FixedSourcesFiltered(src: Sources, q: Query, t: FilterType)
    ensures OfType(t, MaintenanceEvents(src.maintenances, q))
            == Gate(Admits(OnlyEvents(t), MaintenanceType), MaintenanceEvents(src.maintenances, q))
    ensures OfType(t, RepairEvents(src.repairs, q))
            == Gate(Admits(OnlyEvents(t), RepairType), RepairEvents(src.repairs, q))
    ensures OfType(t, TicketEvents(src.tickets, q))
            == Gate(Admits(OnlyEvents(t), TicketType), TicketEvents(src.tickets, q))
    ensures OfType(t, HolidayEvents(src.holidays, q))
            == Gate(Admits(OnlyEvents(t), HolidayType), HolidayEvents(src.holidays, q))
    ensures OfType(t, WeekendEvents(q, AllEvents)) == WeekendEvents(q, OnlyEvents(t))
  {
    MaintenanceTypes(src.maintenances, q);
    UniformGate(t, MaintenanceType, MaintenanceEvents(src.maintenances, q));
    RepairTypes(src.repairs, q);
    UniformGate(t, RepairType, RepairEvents(src.repairs, q));
    TicketTypes(src.tickets, q);
    UniformGate(t, TicketType, TicketEvents(src.tickets, q));
    HolidayTypes(src.holidays, q);
    UniformGate(t, HolidayType, HolidayEvents(src.holidays, q));
    WeekendFiltered(q, t);
  }

  /** A source whose events all have type `u` is kept whole or dropped by a one-type filter. */
  lemma UniformGate(t: FilterType, u: EventType, es: seq<Event>)
    requires forall e :: e in es ==> e.etype == u
    ensures OfType(t, es) == Gate(Admits(OnlyEvents(t), u), es)
  {
    OfTypeUniform(t, u, es);
  }

  lemma WeekendFiltered(q: Query, t: FilterType)
    ensures OfType(t, WeekendEvents(q, AllEvents)) == WeekendEvents(q, OnlyEvents(t))
  {
    OfTypeUniform(t, WeekendType, WeekendEvents(q, AllEvents));
  }

  /** Keeping one listed type of the schedules is what that type's filter shows of them. */
  lemma SchedulesFiltered(src: Sources, q: Query, t: EventType)
    requires !t.OtherType? && !t.Unlisted?
    requires forall s :: s in src.schedules ==> IsScheduleKind(s.stype)
    ensures OfType(t, ScheduleEvents(src.schedules, src.users, q, AllEvents))
            == Gate(SchedulesWanted(OnlyEvents(t)), ScheduleEvents(src.schedules, src.users, q, OnlyEvents(t)))
  {
    ScheduleOfType(src.schedules, src.users, q, t);
    if !IsScheduleType(t) {
      ScheduleKinds(src.schedules, src.users, q);
      OfTypeNone(t, ScheduleEvents(src.schedules, src.users, q, AllEvents));
    }
  }

  lemma {:induction false} ScheduleKinds(ss: seq<Schedule>, users: seq<User>, q: Query)
    requires forall s :: s in ss ==> IsScheduleKind(s.stype)
    ensures forall e :: e in ScheduleEvents(ss, users, q, AllEvents) ==> IsScheduleKind(e.etype)
    decreases |ss|
  {
    if ss != [] {
      assert ss[|ss| - 1] in ss;
      ScheduleKinds(ss[..|ss| - 1], users, q);
    }
  }

  /**
   * Schedules of type 'other' show under "all" but under no type filter:
   * 'other' is missing from the whitelist, so its filter shows nothing at all.
   */
  lemma OtherSchedulesOnlyUnderAll(src: Sources, q: Query)
    ensures EventsForDate(src, q, OnlyEvents(OtherType)) == []
    ensures OfType(OtherType, EventsForDate(src, q, AllEvents))
            == OfType(OtherType, ScheduleEvents(src.schedules, src.users, q, AllEvents))
  {
    OtherFilterShowsNothing(src, q);
    var rest := MaintenanceEvents(src.maintenances, q) + RepairEvents(src.repairs, q) + TicketEvents(src.tickets, q)
                + (HolidayEvents(src.holidays, q) + WeekendEvents(q, AllEvents));
    var e := ScheduleEvents(src.schedules, src.users, q, AllEvents);
    assert EventsForDate(src, q, AllEvents) == rest + e;
    OfTypeConcat(OtherType, rest, e);
    FixedSourcesHaveNoOther(src, q);
  }

  /** The 'other' filter admits no fixed source and no schedule. */
  lemma OtherFilterShowsNothing(src: Sources, q: Query)
    ensures EventsForDate(src, q, OnlyEvents(OtherType)) == []
  {
  }

  /** Maintenance, repair, ticket, holiday and weekend events are never of type 'other'. */
  lemma FixedSourcesHaveNoOther(src: Sources, q: Query)
    ensures OfType(OtherType, MaintenanceEvents(src.maintenances, q) + RepairEvents(src.repairs, q)
                              + TicketEvents(src.tickets, q)
                              + (HolidayEvents(src.holidays, q) + WeekendEvents(q, AllEvents))) == []
  {
    var a := MaintenanceEvents(src.maintenances, q);
    var b := RepairEvents(src.repairs, q);
    var c := TicketEvents(src.tickets, q);
    var h := HolidayEvents(src.holidays, q);
    var w := WeekendEvents(q, AllEvents);
    MaintenanceTypes(src.maintenances, q);
    RepairTypes(src.repairs, q);
    TicketTypes(src.tickets, q);
    HolidayTypes(src.holidays, q);
    OfTypeNone(OtherType, a);
    OfTypeNone(OtherType, b);
    OfTypeNone(OtherType, c);
    OfTypeNone(OtherType, h);
    OfTypeNone(OtherType, w);
    OfTypeConcat(OtherType, a, b);
    OfTypeConcat(OtherType, a + b, c);
    OfTypeConcat(OtherType, h, w);
    OfTypeConcat(OtherType, a + b + c, h + w);
  }

  lemma {:induction false} MaintenanceTypes(ms: seq<Maintenance>, q: Query)
    ensures forall e :: e in MaintenanceEvents(ms, q) ==> e.etype == MaintenanceType
    decreases |ms|
  {
    if ms != [] { MaintenanceTypes(ms[..|ms| - 1], q); }
  }

  lemma {:induction false} RepairTypes(rs: seq<Repair>, q: Query)
    ensures forall e :: e in RepairEvents(rs, q) ==> e.etype == RepairType
    decreases |rs|
  {
    if rs != [] { RepairTypes(rs[..|rs| - 1], q); }
  }

  lemma {:induction false} TicketTypes(ts: seq<Ticket>, q: Query)
    ensures forall e :: e in TicketEvents(ts, q) ==> e.etype == TicketType
    decreases |ts|
  {
    if ts != [] { TicketTypes(ts[..|ts| - 1], q); }
  }

  lemma {:induction false} HolidayTypes(hs: seq<Holiday>, q: Query)
    ensures forall e :: e in HolidayEvents(hs, q) ==> e.etype == HolidayType
    decreases |hs|
  {
    if hs != [] { HolidayTypes(hs[..|hs| - 1], q); }
  }

  lemma {:induction false} ScheduleTypes(ss: seq<Schedule>, users: seq<User>, q: Query, t: FilterType)
    ensures forall e :: e in ScheduleEvents(ss, users, q, OnlyEvents(t)) ==> e.etype == t
    decreases |ss|
  {
    if ss != [] { ScheduleTypes(ss[..|ss| - 1], users, q, t); }
  }

  /** The schedule title is "<label>: <name>", with " (start-end)" only when both times are set. */
  lemma ScheduleTitleShape(s: Schedule, users: seq<User>)
    ensures var kind := if TypeLabel(s.stype).Some? then TypeLabel(s.stype).value else "Événement";
            var user := FindUser(users, s.userId);
            var who := if user.Some? then user.value.name else "Utilisateur";
            var head := kind + ": " + who;
            var t := ScheduleTitle(s, users);
            t[..|head|] == head
            && (|t| > |head| <==> Truthy(s.startTime) && Truthy(s.endTime))
  {
  }

  /** Every type the planning form offers has its own label; only unlisted types fall back. */
  lemma TypeLabelCoversKinds(t: EventType)
    ensures TypeLabel(t).Some? <==> IsScheduleKind(t)
  {
  }

  /** Only the numeric ids 1 to 4 get their own colour; a string id such as "1" is grey. */
  lemma UserColorFixed(id: Option<JsId>)
    ensures UserColor(id) != "#6b7280" <==> (id.Some? && id.value.Num? && 1 <= id.value.n <= 4)
  {
  }

  // ---------------------------------------------------------------------------
  // renderMonthView: the 42-cell grid and its markings
  // ---------------------------------------------------------------------------

  datatype AltMark = Unmarked | AlternantWork | AlternantOff

  datatype Cell = Cell(date: Civil, otherMonth: bool, holiday: bool, weekend: bool, mark: AltMark)

  /** The alternating schedule (script.js:3745-3753): odd ISO weeks Mon-Wed, even weeks Thu-Fri. */
  function AlternantMark(week: int, dow: int, isHoliday: bool): AltMark
  {
    var working := (week % 2 == 1 && dow in {1, 2, 3}) || (week % 2 == 0 && dow in {4, 5});
    if working && !isHoliday && dow != 0 && dow != 6 then AlternantWork
    else if !isHoliday && dow != 0 && dow != 6 then AlternantOff
    else Unmarked
  }

  /** Whether the alternating marks are drawn: user 2 is an apprentice and is in view. */
  predicate ShowsAlternance(selected: UserFilter, users: seq<User>)
  {
    (selected == OnlyUser(Str("2")) || selected.AllUsers?)
    && var david := FindUser(users, Some(Num(2)));
       david.Some? && david.value.employeeType == Some("alternant")
  }

  predicate IsHolidayText(holidays: seq<Holiday>, dateStr: string)
  {
    exists h :: h in holidays && h.date == dateStr
  }

  function CellFor(c: Civil, month: int, holidays: seq<Holiday>, alternance: bool): Cell
    requires Valid(c)
  {
    var dow := Weekday(ToDays(c));
    var hol := IsHolidayText(holidays, IsoDate(c));
    Cell(c, c.month != month, hol, dow == 0 || dow == 6,
         if alternance then AlternantMark(WeekNumber(c), dow, hol) else Unmarked)
  }

  /** The first `n` cells of a grid whose first cell shows `start`. */
  function GridCells(start: Civil, n: nat, month: int, holidays: seq<Holiday>, alternance: bool): (cells: seq<Cell>)
    requires Valid(start)
    ensures |cells| == n
    ensures forall k :: 0 <= k < n ==> cells[k] == CellFor(DaysAhead(start, k), month, holidays, alternance)
    decreases n
  {
    if n == 0 then []
    else GridCells(start, n - 1, month, holidays, alternance) + [CellFor(DaysAhead(start, n - 1), month, holidays, alternance)]
  }

  /** The 42 cells of the month view: six Sunday-first weeks around the month. */
  function MonthCells(year: int, month: int, holidays: seq<Holiday>, alternance: bool): seq<Cell>
    requires 1 <= month <= 12
  {
    GridCells(GridStart(year, month), 42, month, holidays, alternance)
  }

  /** The cell loop of `renderMonthView` (script.js:3704-3754). */
  method MonthGrid(year: int, month: int, holidays: seq<Holiday>, selected: UserFilter, users: seq<User>)
    returns (cells: seq<Cell>)
    requires 1 <= month <= 12
    ensures cells == MonthCells(year, month, holidays, ShowsAlternance(selected, users))
  {
    var start := GridStart(year, month);
    var alternance := ShowsAlternance(selected, users);
    var cur := start;
    cells := [];
    var i := 0;
    while i < 42
      invariant 0 <= i <= 42
      invariant cur == DaysAhead(start, i)
      invariant cells == GridCells(start, i, month, holidays, alternance)
    {
      cells := cells + [CellFor(cur, month, holidays, alternance)];
      cur := NextDay(cur);
      i := i + 1;
    }
  }

  /**
   * The grid starts on a Sunday, shows consecutive days, and each cell's flags
   * are those of its own date.
   */
  lemma MonthCellsShape(year: int, month: int, holidays: seq<Holiday>, alternance: bool)
    requires 1 <= month <= 12
    ensures var cells := MonthCells(year, month, holidays, alternance);
            |cells| == 42
            && Weekday(ToDays(cells[0].date)) == 0
            && (forall k :: 0 <= k < 42 ==> Valid(cells[k].date) && ToDays(cells[k].date) == ToDays(cells[0].date) + k)
            && (forall k :: 0 <= k < 42 ==> cells[k] == CellFor(cells[k].date, month, holidays, alternance))
  {
    var start := GridStart(year, month);
    var cells := MonthCells(year, month, holidays, alternance);
    assert cells[0].date == start;
    forall k | 0 <= k < 42
      ensures Valid(cells[k].date) && ToDays(cells[k].date) == ToDays(cells[0].date) + k
      ensures cells[k] == CellFor(cells[k].date, month, holidays, alternance)
    {
      assert cells[k].date == DaysAhead(start, k);
    }
  }

  /** Every day of the month is in the grid, at position weekday-of-the-1st + day - 1. */
  lemma MonthFitsGrid(year: int, month: int, holidays: seq<Holiday>, alternance: bool, d: int)
    requires 1 <= month <= 12 && 1 <= d <= DaysInMonth(year, month)
    ensures var cells := MonthCells(year, month, holidays, alternance);
            var k := Weekday(ToDays(Civil(year, month, 1))) + d - 1;
            0 <= k < 42 && cells[k].date == Civil(year, month, d)
            && !cells[k].otherMonth
  {
    var cells := MonthCells(year, month, holidays, alternance);
    var first := Civil(year, month, 1);
    var k := Weekday(ToDays(first)) + d - 1;
    MonthCellsShape(year, month, holidays, alternance);
    assert ToDays(cells[0].date) == ToDays(first) - Weekday(ToDays(first)) by {
      assert cells[0].date == GridStart(year, month);
    }
    assert ToDays(cells[k].date) == ToDays(Civil(year, month, d));
    ToDaysInjective(cells[k].date, Civil(year, month, d));
  }

  /** Weekends and holidays never carry an alternating mark. */
  lemma AlternanceSkipsRestDays(week: int, dow: int, isHoliday: bool)
    requires isHoliday || dow == 0 || dow == 6
    ensures AlternantMark(week, dow, isHoliday) == Unmarked
  {
  }

  /**
   * Over an odd week followed by an even one, each weekday Monday-Friday that is
   * not a holiday is a working day in exactly one of the two.
   */
  lemma AlternanceCoversFortnight(odd: int, even: int, dow: int)
    requires odd % 2 == 1 && even % 2 == 0 && 1 <= dow <= 5
    ensures (AlternantMark(odd, dow, false) == AlternantWork) != (AlternantMark(even, dow, false) == AlternantWork)
  {
  }

  /**
   * Week parity is taken from the ISO week number, so it does not alternate
   * after a 53-week year: when the next year starts on a Friday, December 28th
   * lies in week 53 and the week after it is week 1, both odd.
   */
  lemma ParityRepeatsAfterWeek53(y: int)
    requires Weekday(YearStart(y + 1)) == 5
    ensures ToDays(Civil(y + 1, 1, 4)) == ToDays(Civil(y, 12, 28)) + 7
    ensures WeekNumber(Civil(y, 12, 28)) == 53 && WeekNumber(Civil(y + 1, 1, 4)) == 1
  {
    Week53(y);
    NewYearWeekGap(y);
    January4thIsWeekOne(y + 1);
  }

  lemma Week53(y: int)
    requires Weekday(YearStart(y + 1)) == 5
    ensures WeekNumber(Civil(y, 12, 28)) == 53
  {
    LateDecember(y);
    YearStartNext(y);
    var d := ToDays(Civil(y, 12, 28));
    assert Weekday(d) == 1 by {
      WeekdayShift(d, 4);
    }
    assert WeekThursday(d) == ToDays(Civil(y, 12, 31));
    WeekNumberIn(Civil(y, 12, 28), y);
  }

  lemma NewYearWeekGap(y: int)
    ensures ToDays(Civil(y + 1, 1, 4)) == ToDays(Civil(y, 12, 28)) + 7
  {
    YearStartNext(y);
    DecemberStart(y);
  }

  /** 2021 started on a Friday, so 2020 is such a year. */
  lemma NewYear2021(y: int)
    requires y == 2021
    ensures Weekday(YearStart(y)) == 5
  {
    YearStartClosed(y);
    assert LeapsUpTo(y - 1) == 490;
    assert LeapsUpTo(1969) == 477;
  }
}
