/*
 * The counters: the component count per machine (ComponentService.java), the
 * dashboard statistics (DashboardController.java) and the report data
 * (RapportsController.java). Each is a loop over lists read for one
 * enterprise; the lists are parameters here, `None` standing for a list that
 * is null or whose read threw (the handlers catch the exception and leave
 * that counter at 0).
 */
module Counters {
  import opened Base
  import opened JavaStrings
  import Machines
  import Tickets

  // ---------------------------------------------------------------------------
  // Counting
  // ---------------------------------------------------------------------------

  /** The number of elements satisfying `p`. */
  function Count<T>(xs: seq<T>, p: T -> bool): (n: nat)
    ensures n <= |xs|
    decreases |xs|
  {
    if xs == [] then 0
    else Count(xs[..|xs| - 1], p) + (if p(xs[|xs| - 1]) then 1 else 0)
  }

  /** Counting a weaker condition never gives less. */
  lemma {:induction false} CountMonotone<T>(xs: seq<T>, p: T -> bool, q: T -> bool)
    requires forall x :: p(x) ==> q(x)
    ensures Count(xs, p) <= Count(xs, q)
    decreases |xs|
  {
    if xs != [] {
      CountMonotone(xs[..|xs| - 1], p, q);
    }
  }

  /** When every element satisfies exactly one of three conditions, the three counts add up to the length. */
  lemma {:induction false} CountPartition<T>(xs: seq<T>, p: T -> bool, q: T -> bool, r: T -> bool)
    requires forall x :: (p(x) && !q(x) && !r(x)) || (!p(x) && q(x) && !r(x)) || (!p(x) && !q(x) && r(x))
    ensures Count(xs, p) + Count(xs, q) + Count(xs, r) == |xs|
    decreases |xs|
  {
    if xs != [] {
      CountPartition(xs[..|xs| - 1], p, q, r);
    }
  }

  /** The keys `f` gives each element, in order. */
  function KeysOf<T>(xs: seq<T>, f: T -> string): (ks: seq<string>)
    ensures |ks| == |xs|
    decreases |xs|
  {
    if xs == [] then [] else KeysOf(xs[..|xs| - 1], f) + [f(xs[|xs| - 1])]
  }

  lemma {:induction false} KeysOfIndex<T>(xs: seq<T>, f: T -> string, i: int)
    requires 0 <= i < |xs|
    ensures KeysOf(xs, f)[i] == f(xs[i])
    decreases |xs|
  {
    if i < |xs| - 1 {
      KeysOfIndex(xs[..|xs| - 1], f, i);
    }
  }

  /** One more element, one more key, and the histogram counts it. */
  lemma TallyKeysSnoc<T>(xs: seq<T>, x: T, f: T -> string)
    ensures Tally(KeysOf(xs + [x], f)) == Increment(Tally(KeysOf(xs, f)), f(x))
  {
    assert (xs + [x])[..|xs|] == xs;
    TallySnoc(KeysOf(xs, f), f(x));
  }

  // ---------------------------------------------------------------------------
  // Histograms: `map.put(k, map.getOrDefault(k, 0) + 1)` in a loop
  // ---------------------------------------------------------------------------

  /** `m.put(k, m.getOrDefault(k, 0) + 1)`. */
  function Increment(m: map<string, int>, k: string): (m': map<string, int>)
    ensures m'.Keys == m.Keys + {k} && m'[k] == (if k in m then m[k] else 0) + 1
    ensures forall j :: j in m && j != k ==> m'[j] == m[j]
  {
    m[k := (if k in m then m[k] else 0) + 1]
  }

  /** The map the counter loop builds over `keys`. */
  function Tally(keys: seq<string>): map<string, int>
    decreases |keys|
  {
    if keys == [] then map[]
    else
      Increment(Tally(keys[..|keys| - 1]), keys[|keys| - 1])
  }

  /** One more key: its count goes up by one. */
  lemma TallySnoc(keys: seq<string>, k: string)
    ensures Tally(keys + [k]) == Increment(Tally(keys), k)
  {
    assert (keys + [k])[..|keys|] == keys;
  }

  /** How often `k` occurs in `keys`. */
  function Occurrences(keys: seq<string>, k: string): (n: nat)
    ensures n <= |keys|
    decreases |keys|
  {
    if keys == [] then 0
    else Occurrences(keys[..|keys| - 1], k) + (if keys[|keys| - 1] == k then 1 else 0)
  }

  /** The histogram has exactly the keys that occur, each mapped to its number of occurrences. */
  lemma {:induction false} TallyCounts(keys: seq<string>, k: string)
    ensures k in Tally(keys) <==> k in keys
    ensures k in Tally(keys) ==> Tally(keys)[k] == Occurrences(keys, k)
    decreases |keys|
  {
    if keys != [] {
      var init := keys[..|keys| - 1];
      TallyCounts(init, k);
      assert keys == init + [keys[|keys| - 1]];
      if k !in init {
        assert Occurrences(init, k) == 0 by { OccurrencesAbsent(init, k); }
      }
    }
  }

  lemma {:induction false} OccurrencesAbsent(keys: seq<string>, k: string)
    requires k !in keys
    ensures Occurrences(keys, k) == 0
    decreases |keys|
  {
    if keys != [] {
      OccurrencesAbsent(keys[..|keys| - 1], k);
    }
  }

  /** Some key of a non-empty map. */
  ghost function Pick(m: map<string, int>): string
    requires m != map[]
    ensures Pick(m) in m
  {
    var k :| k in m; k
  }

  /** The sum of a map's values. */
  ghost function MapSum(m: map<string, int>): int
    decreases |m|
  {
    if m == map[] then 0
    else
      var k := Pick(m);
      m[k] + MapSum(m - {k})
  }

  /** The sum may be taken starting from any key. */
  lemma {:induction false} MapSumRemove(m: map<string, int>, k: string)
    requires k in m
    ensures MapSum(m) == m[k] + MapSum(m - {k})
    decreases |m|
  {
    var j := Pick(m);
    if j != k {
      MapSumRemove(m - {j}, k);
      MapSumRemove(m - {k}, j);
      assert m - {j} - {k} == m - {k} - {j};
    }
  }

  /** The counts of a histogram add up to the number of keys counted. */
  lemma {:induction false} TallySum(keys: seq<string>)
    ensures MapSum(Tally(keys)) == |keys|
    decreases |keys|
  {
    if keys != [] {
      var m := Tally(keys[..|keys| - 1]);
      var k := keys[|keys| - 1];
      TallySum(keys[..|keys| - 1]);
      var m' := Increment(m, k);
      MapSumRemove(m', k);
      if k in m {
        MapSumRemove(m, k);
        assert m' - {k} == m - {k};
      } else {
        assert m' - {k} == m;
      }
    }
  }

  // ---------------------------------------------------------------------------
  // countComponentsByMachine (ComponentService.java:24-41)
  // ---------------------------------------------------------------------------

  /** A list element: null, or a component with its machine id. */
  datatype ComponentEntry = NullComponent | Component(machineId: Option<string>)

  /** `!s.trim().isEmpty()`: some character is above the space (see `TrimNonEmptyIff`). */
  predicate SurvivesTrim(s: string)
  {
    exists k :: 0 <= k < |s| && s[k] > ' '
  }

  lemma TrimNonEmptyIff(s: string)
    ensures Trim(s) != [] <==> SurvivesTrim(s)
  {
    TrimEmptyIff(s);
  }

  /** A component counts when it is not null and its machine id is neither null nor blank. */
  predicate Attached(c: ComponentEntry)
  {
    c.Component? && c.machineId.Some? && SurvivesTrim(c.machineId.value)
  }

  /** The machine ids of the attached components, in list order. */
  function AttachedIds(cs: seq<ComponentEntry>): seq<string>
    decreases |cs|
  {
    if cs == [] then []
    else
      var c := cs[|cs| - 1];
      AttachedIds(cs[..|cs| - 1]) + (if Attached(c) then [c.machineId.value] else [])
  }

  /** One more component: its machine's count goes up by one if it is attached. */
  lemma CountStep(cs: seq<ComponentEntry>, c: ComponentEntry)
    ensures Tally(AttachedIds(cs + [c]))
              == var m := Tally(AttachedIds(cs));
                 if Attached(c) then Increment(m, c.machineId.value)
                 else m
  {
    assert (cs + [c])[..|cs|] == cs;
    var ids := AttachedIds(cs);
    if Attached(c) {
      assert AttachedIds(cs + [c]) == ids + [c.machineId.value];
      TallySnoc(ids, c.machineId.value);
    } else {
      assert AttachedIds(cs + [c]) == ids + [];
      assert ids + [] == ids;
    }
  }

  /** The per-machine component counts; a null list gives an empty map. */
  method CountComponentsByMachine(components: Option<seq<ComponentEntry>>) returns (counts: map<string, int>)
    ensures components.None? ==> counts == map[]
    ensures components.Some? ==> counts == Tally(AttachedIds(components.value))
  {
    counts := map[];
    if components.None? {
      return;
    }
    var cs := components.value;
    var i := 0;
    while i < |cs|
      invariant 0 <= i <= |cs|
      invariant counts == Tally(AttachedIds(cs[..i]))
    {
      assert cs[..i + 1] == cs[..i] + [cs[i]];
      CountStep(cs[..i], cs[i]);
      var c := cs[i];
      if Attached(c) {
        var id := c.machineId.value;
        counts := Increment(counts, id);
      }
      i := i + 1;
    }
    assert cs[..i] == cs;
  }

  /**
   * The keys are exactly the machine ids of attached components, each
   * mapped to how many components it has, and the counts add up to the
   * number of attached components.
   */
  lemma ComponentCountsRule(cs: seq<ComponentEntry>, id: string)
    ensures id in Tally(AttachedIds(cs)) <==> exists i :: 0 <= i < |cs| && Attached(cs[i]) && cs[i].machineId.value == id
    ensures id in Tally(AttachedIds(cs)) ==> Tally(AttachedIds(cs))[id] == Occurrences(AttachedIds(cs), id)
    ensures MapSum(Tally(AttachedIds(cs))) == Count(cs, Attached)
  {
    TallyCounts(AttachedIds(cs), id);
    TallySum(AttachedIds(cs));
    AttachedIdsLength(cs);
    AttachedIdsMembers(cs, id);
  }

  lemma {:induction false} AttachedIdsLength(cs: seq<ComponentEntry>)
    ensures |AttachedIds(cs)| == Count(cs, Attached)
    decreases |cs|
  {
    if cs != [] {
      AttachedIdsLength(cs[..|cs| - 1]);
    }
  }

  lemma {:induction false} AttachedIdsMembers(cs: seq<ComponentEntry>, id: string)
    ensures id in AttachedIds(cs) <==> exists i :: 0 <= i < |cs| && Attached(cs[i]) && cs[i].machineId.value == id
    decreases |cs|
  {
    if cs != [] {
      var init := cs[..|cs| - 1];
      AttachedIdsMembers(init, id);
      if id in AttachedIds(init) {
        var i :| 0 <= i < |init| && Attached(init[i]) && init[i].machineId.value == id;
        assert cs[i] == init[i];
      }
      if exists i :: 0 <= i < |cs| && Attached(cs[i]) && cs[i].machineId.value == id {
        var i :| 0 <= i < |cs| && Attached(cs[i]) && cs[i].machineId.value == id;
        if i < |init| {
          assert init[i] == cs[i];
        }
      }
    }
  }

  // ---------------------------------------------------------------------------
  // Shared record views
  // ---------------------------------------------------------------------------

  /** A calendar month: the year and the month number 1..12. */
  datatype Month = Month(year: int, month: int)

  /** What the counters read of a ticket: the raw status and priority, and the month it was created in. */
  datatype TicketRow = TicketRow(statut: Option<string>, priorite: Option<string>, createdMonth: Option<Month>)

  /** What the counters read of an alert or a reminder. */
  datatype CheckRow = CheckRow(verifie: Option<bool>, envoye: Option<bool>, createdMonth: Option<Month>)

  // ---------------------------------------------------------------------------
  // calculateStatistics (DashboardController.java:117-211)
  // ---------------------------------------------------------------------------

  /** Open: `getStatut()` is "a_faire" or "en_cours". */
  predicate IsOpen(t: TicketRow)
  {
    var s := Tickets.StatutOf(t.statut);
    s == "a_faire" || s == "en_cours"
  }

  /** Urgent: open with priority "urgente". */
  predicate IsUrgent(t: TicketRow)
  {
    IsOpen(t) && Tickets.PrioriteOf(t.priorite) == "urgente"
  }

  /** Pending: `verifie` null or false. */
  predicate IsPending(c: CheckRow)
  {
    c.verifie.None? || !c.verifie.value
  }

  datatype Stats = Stats(totalMachines: int, openTickets: int, pendingMaintenance: int, activeRepairs: int,
                         completedMaintenance: int, urgentTickets: int, pendingRappels: int, pendingAlertes: int)

  const ZERO_STATS := Stats(0, 0, 0, 0, 0, 0, 0, 0)

  function LengthOr<T>(xs: Option<seq<T>>): nat
  {
    if xs.Some? then |xs.value| else 0
  }

  /** The count of open tickets. */
  method CountOpen(ts: seq<TicketRow>) returns (open: int, urgent: int)
    ensures open == Count(ts, IsOpen) && urgent == Count(ts, IsUrgent)
  {
    open, urgent := 0, 0;
    var i := 0;
    while i < |ts|
      invariant 0 <= i <= |ts|
      invariant open == Count(ts[..i], IsOpen) && urgent == Count(ts[..i], IsUrgent)
    {
      assert ts[..i + 1][..i] == ts[..i];
      var statut := Tickets.StatutOf(ts[i].statut);
      if statut == "a_faire" || statut == "en_cours" {
        open := open + 1;
      }
      if Tickets.PrioriteOf(ts[i].priorite) == "urgente" && (statut == "a_faire" || statut == "en_cours") {
        urgent := urgent + 1;
      }
      i := i + 1;
    }
    assert ts[..i] == ts;
  }

  method CountPending(cs: seq<CheckRow>) returns (pending: int)
    ensures pending == Count(cs, IsPending)
  {
    pending := 0;
    var i := 0;
    while i < |cs|
      invariant 0 <= i <= |cs|
      invariant pending == Count(cs[..i], IsPending)
    {
      assert cs[..i + 1][..i] == cs[..i];
      if cs[i].verifie.None? || !cs[i].verifie.value {
        pending := pending + 1;
      }
      i := i + 1;
    }
    assert cs[..i] == cs;
  }

  /**
   * The dashboard counters. A blank enterprise id gives all zeros; otherwise
   * the machine and history counts are list sizes, the ticket counters count
   * open and open-urgent tickets, the pending counters count unverified
   * records, pending maintenance is their sum, and active repairs stay 0.
   */
  method CalculateStatistics(entrepriseId: Option<string>, machines: Option<seq<Machines.Machine>>,
                             tickets: Option<seq<TicketRow>>, rappels: Option<seq<CheckRow>>,
                             alertes: Option<seq<CheckRow>>, historiques: Option<seq<CheckRow>>)
    returns (s: Stats)
    ensures !HasTextOpt(entrepriseId) ==> s == ZERO_STATS
    ensures HasTextOpt(entrepriseId) ==>
              var ts := tickets.GetOr([]);
              s.totalMachines == LengthOr(machines)
              && s.openTickets == Count(ts, IsOpen)
              && s.urgentTickets == Count(ts, IsUrgent)
              && s.pendingRappels == Count(rappels.GetOr([]), IsPending)
              && s.pendingAlertes == Count(alertes.GetOr([]), IsPending)
              && s.completedMaintenance == LengthOr(historiques)
    ensures s.pendingMaintenance == s.pendingRappels + s.pendingAlertes
    ensures s.activeRepairs == 0
    ensures 0 <= s.urgentTickets <= s.openTickets <= LengthOr(tickets)
  {
    if !(entrepriseId.Some? && HasText(entrepriseId.value)) {
      return ZERO_STATS;
    }
    var totalMachines := if machines.Some? then |machines.value| else 0;
    var open, urgent := CountOpen(tickets.GetOr([]));
    CountMonotone(tickets.GetOr([]), IsUrgent, IsOpen);
    var pendingRappels := CountPending(rappels.GetOr([]));
    var pendingAlertes := CountPending(alertes.GetOr([]));
    var completed := if historiques.Some? then |historiques.value| else 0;
    s := Stats(totalMachines, open, pendingRappels + pendingAlertes, 0, completed, urgent, pendingRappels, pendingAlertes);
  }

  // ---------------------------------------------------------------------------
  // calculateReportData (RapportsController.java:94-251)
  // ---------------------------------------------------------------------------

  /** Months counted from year 0: consecutive months have consecutive indexes. */
  function MonthIndex(m: Month): int
  {
    m.year * 12 + m.month - 1
  }

  predicate ValidMonth(m: Month)
  {
    1 <= m.month <= 12
  }

  /** `cal.add(Calendar.MONTH, -k)`. */
  function MonthsBack(m: Month, k: nat): (r: Month)
    requires ValidMonth(m)
    ensures ValidMonth(r) && MonthIndex(r) == MonthIndex(m) - k
  {
    var i := MonthIndex(m) - k;
    Month(i / 12, i % 12 + 1)
  }

  /** The report months: the five months before `now` and `now`, oldest first. */
  function LastSixMonths(now: Month): (ms: seq<Month>)
    requires ValidMonth(now)
    ensures |ms| == 6
  {
    [MonthsBack(now, 5), MonthsBack(now, 4), MonthsBack(now, 3), MonthsBack(now, 2), MonthsBack(now, 1), MonthsBack(now, 0)]
  }

  /**
   * The six months end with the current one, each following the one
   * before it, so they are in chronological order and pairwise distinct.
   */
  lemma LastSixMonthsRule(now: Month)
    requires ValidMonth(now)
    ensures LastSixMonths(now)[5] == now
    ensures forall i :: 0 <= i < 5 ==> MonthIndex(LastSixMonths(now)[i + 1]) == MonthIndex(LastSixMonths(now)[i]) + 1
    ensures forall i, j :: 0 <= i < j < 6 ==> MonthIndex(LastSixMonths(now)[i]) < MonthIndex(LastSixMonths(now)[j])
    ensures forall i, j :: 0 <= i < j < 6 ==> LastSixMonths(now)[i] != LastSixMonths(now)[j]
  {
    var ms := LastSixMonths(now);
    assert forall i :: 0 <= i < 6 ==> MonthIndex(ms[i]) == MonthIndex(now) - (5 - i);
    SameIndexSameMonth(ms[5], now);
  }

  /** A valid month is determined by its index. */
  lemma SameIndexSameMonth(a: Month, b: Month)
    requires ValidMonth(a) && ValidMonth(b) && MonthIndex(a) == MonthIndex(b)
    ensures a == b
  {
  }

  /** The three buckets of an alert or reminder, tested in this order. */
  predicate InVerifie(c: CheckRow) { c.verifie == Some(true) }

  predicate InEnvoye(c: CheckRow) { c.verifie != Some(true) && c.envoye == Some(true) }

  predicate InNonEnvoye(c: CheckRow) { c.verifie != Some(true) && c.envoye != Some(true) }

  datatype Buckets = Buckets(verifie: int, envoye: int, nonEnvoye: int)

  /** The per-month counters of one report month. */
  datatype MonthCounts = MonthCounts(tickets: int, rappels: int, alertes: int)

  /** How many records were created in month `m`. */
  function CountIn<T>(xs: seq<T>, month: T -> Option<Month>, m: Month): (n: nat)
    ensures n <= |xs|
    decreases |xs|
  {
    if xs == [] then 0
    else CountIn(xs[..|xs| - 1], month, m) + (if month(xs[|xs| - 1]) == Some(m) then 1 else 0)
  }

  /** `if (monthlyStats.containsKey(k)) monthlyStats.get(k).put(src, ... + 1)` for a record created in month `created`. */
  function CountMonth(monthly: map<Month, MonthCounts>, created: Option<Month>, src: Source): map<Month, MonthCounts>
  {
    if created.Some? && created.value in monthly then monthly[created.value := Bump(monthly[created.value], src, 1)]
    else monthly
  }

  /** One more record: the month it was created in, if it is a report month, counts it. */
  lemma AddMonthlySnoc<T>(monthly: map<Month, MonthCounts>, xs: seq<T>, x: T, month: T -> Option<Month>, src: Source)
    ensures AddMonthly(monthly, xs + [x], month, src) == CountMonth(AddMonthly(monthly, xs, month, src), month(x), src)
  {
    assert (xs + [x])[..|xs|] == xs;
  }

  function TicketMonth(t: TicketRow): Option<Month> { t.createdMonth }

  function CheckMonth(c: CheckRow): Option<Month> { c.createdMonth }

  /** The histogram key of a ticket: `getStatut()`, which is never null, so "unknown" is never chosen. */
  function StatusKey(t: TicketRow): string { Tickets.StatutOf(t.statut) }

  function PriorityKey(t: TicketRow): string { Tickets.PrioriteOf(t.priorite) }

  /** Which counter of a report month a loop adds to. */
  datatype Source = TicketSource | RappelSource | AlerteSource

  function Bump(c: MonthCounts, src: Source, n: int): MonthCounts
  {
    match src
    case TicketSource => c.(tickets := c.tickets + n)
    case RappelSource => c.(rappels := c.rappels + n)
    case AlerteSource => c.(alertes := c.alertes + n)
  }

  /** `monthlyStats` after counting `xs`: each existing month gains the records created in it. */
  function AddMonthly<T>(monthly: map<Month, MonthCounts>, xs: seq<T>, month: T -> Option<Month>, src: Source): map<Month, MonthCounts>
  {
    map m | m in monthly :: Bump(monthly[m], src, CountIn(xs, month, m))
  }

  /** The ticket loop: both histograms and the monthly ticket counts. */
  method TallyTickets(ts: seq<TicketRow>, monthly: map<Month, MonthCounts>)
    returns (byStatus: map<string, int>, byPriority: map<string, int>, monthly': map<Month, MonthCounts>)
    ensures byStatus == Tally(KeysOf(ts, StatusKey))
    ensures byPriority == Tally(KeysOf(ts, PriorityKey))
    ensures monthly' == AddMonthly(monthly, ts, TicketMonth, TicketSource)
  {
    byStatus, byPriority, monthly' := map[], map[], monthly;
    var i := 0;
    while i < |ts|
      invariant 0 <= i <= |ts|
      invariant byStatus == Tally(KeysOf(ts[..i], StatusKey))
      invariant byPriority == Tally(KeysOf(ts[..i], PriorityKey))
      invariant monthly' == AddMonthly(monthly, ts[..i], TicketMonth, TicketSource)
    {
      var t := ts[i];
      TicketStep(ts, i, monthly);
      var statut := Tickets.StatutOf(t.statut);
      byStatus := Increment(byStatus, statut);
      var priorite := Tickets.PrioriteOf(t.priorite);
      byPriority := Increment(byPriority, priorite);
      monthly' := CountMonth(monthly', t.createdMonth, TicketSource);
      i := i + 1;
    }
    assert ts[..i] == ts;
  }

  /** Counting ticket `i` extends the three tallies of the tickets before it. */
  lemma TicketStep(ts: seq<TicketRow>, i: int, monthly: map<Month, MonthCounts>)
    requires 0 <= i < |ts|
    ensures Tally(KeysOf(ts[..i + 1], StatusKey))
            == Increment(Tally(KeysOf(ts[..i], StatusKey)), StatusKey(ts[i]))
    ensures Tally(KeysOf(ts[..i + 1], PriorityKey))
            == Increment(Tally(KeysOf(ts[..i], PriorityKey)), PriorityKey(ts[i]))
    ensures AddMonthly(monthly, ts[..i + 1], TicketMonth, TicketSource)
            == CountMonth(AddMonthly(monthly, ts[..i], TicketMonth, TicketSource), ts[i].createdMonth, TicketSource)
  {
    assert ts[..i + 1] == ts[..i] + [ts[i]];
    TallyKeysSnoc(ts[..i], ts[i], StatusKey);
    TallyKeysSnoc(ts[..i], ts[i], PriorityKey);
    AddMonthlySnoc(monthly, ts[..i], ts[i], TicketMonth, TicketSource);
  }

  /** An alert or reminder loop: the three buckets and the monthly counts of that source. */
  method TallyChecks(cs: seq<CheckRow>, monthly: map<Month, MonthCounts>, src: Source)
    returns (b: Buckets, monthly': map<Month, MonthCounts>)
    requires src != TicketSource
    ensures b == Buckets(Count(cs, InVerifie), Count(cs, InEnvoye), Count(cs, InNonEnvoye))
    ensures monthly' == AddMonthly(monthly, cs, CheckMonth, src)
  {
    b, monthly' := Buckets(0, 0, 0), monthly;
    var i := 0;
    while i < |cs|
      invariant 0 <= i <= |cs|
      invariant b == Buckets(Count(cs[..i], InVerifie), Count(cs[..i], InEnvoye), Count(cs[..i], InNonEnvoye))
      invariant monthly' == AddMonthly(monthly, cs[..i], CheckMonth, src)
    {
      assert cs[..i + 1] == cs[..i] + [cs[i]];
      assert cs[..i + 1][..i] == cs[..i];
      var c := cs[i];
      AddMonthlySnoc(monthly, cs[..i], c, CheckMonth, src);
      if c.verifie.Some? && c.verifie.value {
        b := b.(verifie := b.verifie + 1);
      } else if c.envoye.Some? && c.envoye.value {
        b := b.(envoye := b.envoye + 1);
      } else {
        b := b.(nonEnvoye := b.nonEnvoye + 1);
      }
      monthly' := CountMonth(monthly', c.createdMonth, src);
      i := i + 1;
    }
    assert cs[..i] == cs;
  }

  /** The report: machine counts, ticket histograms, alert and reminder buckets, and six months of counts. */
  datatype Report = Report(totalMachines: int, machinesOperationnelles: int, machinesEnReparation: int,
                           ticketsByStatus: map<string, int>, ticketsByPriority: map<string, int>,
                           rappelsByStatus: Buckets, alertesByStatus: Buckets,
                           months: seq<Month>, monthlyStats: map<Month, MonthCounts>)

  predicate MachineOperational(m: Machines.Machine) { m.Operationnel() }

  predicate MachineInRepair(m: Machines.Machine) { m.EnReparation() }

  method CountMachines(ms: seq<Machines.Machine>) returns (operational: int, inRepair: int)
    ensures operational == Count(ms, MachineOperational) && inRepair == Count(ms, MachineInRepair)
  {
    operational, inRepair := 0, 0;
    var i := 0;
    while i < |ms|
      invariant 0 <= i <= |ms|
      invariant operational == Count(ms[..i], MachineOperational) && inRepair == Count(ms[..i], MachineInRepair)
    {
      assert ms[..i + 1][..i] == ms[..i];
      if ms[i].Operationnel() {
        operational := operational + 1;
      }
      if ms[i].EnReparation() {
        inRepair := inRepair + 1;
      }
      i := i + 1;
    }
    assert ms[..i] == ms;
  }

  /**
   * The report data; a blank enterprise id gives no data (`None`, the empty
   * map). The months are the last six, each starting at zero and counting
   * the records created in it.
   */
  method CalculateReportData(entrepriseId: Option<string>, now: Month, machines: Option<seq<Machines.Machine>>,
                             tickets: Option<seq<TicketRow>>, rappels: Option<seq<CheckRow>>,
                             alertes: Option<seq<CheckRow>>)
    returns (r: Option<Report>)
    requires ValidMonth(now)
    ensures r.None? <==> !HasTextOpt(entrepriseId)
    ensures r.Some? ==>
              var ms := machines.GetOr([]);
              var ts := tickets.GetOr([]);
              var rs := rappels.GetOr([]);
              var as_ := alertes.GetOr([]);
              r.value.totalMachines == |ms|
              && r.value.machinesOperationnelles == Count(ms, MachineOperational)
              && r.value.machinesEnReparation == Count(ms, MachineInRepair)
              && r.value.ticketsByStatus == Tally(KeysOf(ts, StatusKey))
              && r.value.ticketsByPriority == Tally(KeysOf(ts, PriorityKey))
              && r.value.rappelsByStatus == Buckets(Count(rs, InVerifie), Count(rs, InEnvoye), Count(rs, InNonEnvoye))
              && r.value.alertesByStatus == Buckets(Count(as_, InVerifie), Count(as_, InEnvoye), Count(as_, InNonEnvoye))
              && r.value.months == LastSixMonths(now)
              && (forall m :: m in r.value.monthlyStats <==> m in LastSixMonths(now))
              && forall m :: m in r.value.monthlyStats ==>
                   r.value.monthlyStats[m] == MonthCounts(CountIn(ts, TicketMonth, m), CountIn(rs, CheckMonth, m),
                                                          CountIn(as_, CheckMonth, m))
  {
    if !(entrepriseId.Some? && HasText(entrepriseId.value)) {
      return None;
    }
    var months := LastSixMonths(now);
    var monthly := ZeroMonths(months);
    var ms := machines.GetOr([]);
    var operational, inRepair := CountMachines(ms);
    var byStatus, byPriority, monthly1 := TallyTickets(tickets.GetOr([]), monthly);
    var rb, monthly2 := TallyChecks(rappels.GetOr([]), monthly1, RappelSource);
    var ab, monthly3 := TallyChecks(alertes.GetOr([]), monthly2, AlerteSource);
    ReportMonths(monthly, tickets.GetOr([]), rappels.GetOr([]), alertes.GetOr([]));
    r := Some(Report(|ms|, operational, inRepair, byStatus, byPriority, rb, ab, months, monthly3));
  }

  /** `monthlyStats` before counting: each report month at zero. */
  function ZeroMonths(months: seq<Month>): (m0: map<Month, MonthCounts>)
    ensures forall m :: m in m0 <==> m in months
    ensures forall m :: m in m0 ==> m0[m] == MonthCounts(0, 0, 0)
  {
    map m | m in months :: MonthCounts(0, 0, 0)
  }

  /** The three monthly passes over zeroed report months count each source in its own field. */
  lemma ReportMonths(m0: map<Month, MonthCounts>, ts: seq<TicketRow>, rs: seq<CheckRow>, as_: seq<CheckRow>)
    requires forall m :: m in m0 ==> m0[m] == MonthCounts(0, 0, 0)
    ensures var m3 := AddMonthly(AddMonthly(AddMonthly(m0, ts, TicketMonth, TicketSource), rs, CheckMonth, RappelSource),
                                 as_, CheckMonth, AlerteSource);
            m3.Keys == m0.Keys
            && forall m :: m in m3 ==>
                 m3[m] == MonthCounts(CountIn(ts, TicketMonth, m), CountIn(rs, CheckMonth, m), CountIn(as_, CheckMonth, m))
  {
  }

  /**
   * The report's invariants: each ticket histogram adds up to the number of
   * tickets, each alert/reminder falls in exactly one bucket, and the
   * machine counters never exceed the machine total.
   */
  lemma ReportTotals(ms: seq<Machines.Machine>, ts: seq<TicketRow>, cs: seq<CheckRow>)
    ensures MapSum(Tally(KeysOf(ts, StatusKey))) == |ts|
    ensures MapSum(Tally(KeysOf(ts, PriorityKey))) == |ts|
    ensures Count(cs, InVerifie) + Count(cs, InEnvoye) + Count(cs, InNonEnvoye) == |cs|
    ensures Count(ms, MachineOperational) <= |ms| && Count(ms, MachineInRepair) <= |ms|
  {
    TallySum(KeysOf(ts, StatusKey));
    TallySum(KeysOf(ts, PriorityKey));
    CountPartition(cs, InVerifie, InEnvoye, InNonEnvoye);
  }

  /** A ticket whose status is null is counted under "a_faire", never under "unknown". */
  lemma NullStatusCountsAsAFaire(ts: seq<TicketRow>, i: int)
    requires 0 <= i < |ts| && ts[i].statut.None?
    ensures "a_faire" in Tally(KeysOf(ts, StatusKey))
    ensures (forall j :: 0 <= j < |ts| ==> ts[j].statut != Some("unknown")) ==> "unknown" !in Tally(KeysOf(ts, StatusKey))
  {
    var ks := KeysOf(ts, StatusKey);
    KeysOfIndex(ts, StatusKey, i);
    TallyCounts(ks, "a_faire");
    TallyCounts(ks, "unknown");
    if forall j :: 0 <= j < |ts| ==> ts[j].statut != Some("unknown") {
      forall j | 0 <= j < |ks|
        ensures ks[j] != "unknown"
      {
        KeysOfIndex(ts, StatusKey, j);
      }
    }
  }
}
