/**
 * Small rules of script.js: the inventory stock status, the cascade of
 * `deleteCategory`, ticket numbering and status changes, and the repair
 * status changes of the repairs page.
 *
 * The browser's clock (`new Date()`, `Date.now()`) and the answers to
 * `confirm`/`prompt` are parameters.
 */
module ClientRules {
  import opened Base
  import opened JavaStrings

  // ---------------------------------------------------------------------------
  // getStockStatus (script.js:4054-4058)
  // ---------------------------------------------------------------------------

  datatype StockStatus = OutOfStock | LowStock | InStock

  /** The three statuses partition the quantities: zero, at or under the threshold, above it. */
  function GetStockStatus(quantity: int, minStock: int): (r: StockStatus)
    ensures r == OutOfStock <==> quantity == 0
    ensures r == LowStock <==> quantity != 0 && quantity <= minStock
    ensures r == InStock <==> quantity != 0 && quantity > minStock
  {
    if quantity == 0 then OutOfStock
    else if quantity <= minStock then LowStock
    else InStock
  }

  /** Adding stock never lowers an item that is already in stock. */
  lemma RestockKeepsInStock(quantity: int, more: nat, minStock: int)
    requires quantity >= 0 && GetStockStatus(quantity, minStock) == InStock
    ensures GetStockStatus(quantity + more, minStock) == InStock
  {
  }

  // ---------------------------------------------------------------------------
  // deleteCategory (script.js:1852-1861)
  // ---------------------------------------------------------------------------

  datatype Category = Category(id: JsId, name: string)

  datatype SubCategory = SubCategory(id: JsId, parentId: Option<JsId>, name: string)

  /** `categories.filter(c => c.id !== id)`. */
  function WithoutCategory(cs: seq<Category>, id: JsId): (r: seq<Category>)
    ensures forall c :: c in r <==> c in cs && c.id != id
    ensures |r| <= |cs|
    ensures (forall c :: c in cs ==> c.id != id) ==> r == cs
    decreases |cs|
  {
    if cs == [] then []
    else if cs[0].id == id then WithoutCategory(cs[1..], id)
    else [cs[0]] + WithoutCategory(cs[1..], id)
  }

  /** `subCategories.filter(sc => sc.parentId !== id)`. */
  function WithoutChildrenOf(ss: seq<SubCategory>, id: JsId): (r: seq<SubCategory>)
    ensures forall s :: s in r <==> s in ss && s.parentId != Some(id)
    ensures |r| <= |ss|
    decreases |ss|
  {
    if ss == [] then []
    else if ss[0].parentId == Some(id) then WithoutChildrenOf(ss[1..], id)
    else [ss[0]] + WithoutChildrenOf(ss[1..], id)
  }

  /**
   * `deleteCategory`: once confirmed, the category and every sub-category whose
   * parent id is strictly equal to it disappear; nothing else does.
   */
  function DeleteCategory(cs: seq<Category>, ss: seq<SubCategory>, id: JsId, confirmed: bool)
    : (r: (seq<Category>, seq<SubCategory>))
    ensures !confirmed ==> r == (cs, ss)
    ensures confirmed ==> forall c :: c in r.0 <==> c in cs && c.id != id
    ensures confirmed ==> forall s :: s in r.1 <==> s in ss && s.parentId != Some(id)
  {
    if confirmed then (WithoutCategory(cs, id), WithoutChildrenOf(ss, id)) else (cs, ss)
  }

  /**
   * The cascade compares ids with `===`: when the parent ids are stored as
   * text, deleting a category with a numeric id removes no sub-category.
   */
  lemma {:induction false} CascadeIsStrict(cs: seq<Category>, ss: seq<SubCategory>, n: int)
    requires forall s :: s in ss ==> s.parentId.None? || s.parentId.value.Str?
    ensures DeleteCategory(cs, ss, Num(n), true).1 == ss
    decreases |ss|
  {
    if ss != [] {
      assert ss[0] in ss;
      CascadeIsStrict(cs, ss[1..], n);
    }
  }

  // ---------------------------------------------------------------------------
  // Tickets: numbering (script.js:4239) and status changes (script.js:4423-4444)
  // ---------------------------------------------------------------------------

  /** `'TKT-' + String(tickets.length + 1).padStart(3, '0')`. */
  function TicketNumber(count: nat): (r: string)
    ensures |r| >= 7 && r[..4] == "TKT-"
    ensures AllDigits(r[4..]) && DigitsValue(r[4..]) == count + 1
  {
    var r := "TKT-" + Pad(count + 1, 3);
    assert r[4..] == Pad(count + 1, 3);
    PadValue(count + 1, 3);
    r
  }

  /** Different ticket counts give different numbers. */
  lemma TicketNumberInjective(a: nat, b: nat)
    requires TicketNumber(a) == TicketNumber(b)
    ensures a == b
  {
    assert TicketNumber(a)[4..] == TicketNumber(b)[4..];
  }

  datatype ClientTicket = ClientTicket(
    id: int, ticketNumber: string, title: string, status: string,
    createdAt: int, updatedAt: int, resolvedAt: Option<int>, closedAt: Option<int>,
    comments: seq<string>)

  /** `tickets.findIndex(t => t.id === id)`. */
  function TicketIndex(ts: seq<ClientTicket>, id: int): (r: Option<nat>)
    ensures r.Some? ==> r.value < |ts| && ts[r.value].id == id
    ensures r.Some? ==> forall j :: 0 <= j < r.value ==> ts[j].id != id
    ensures r.None? ==> forall j :: 0 <= j < |ts| ==> ts[j].id != id
    decreases |ts|
  {
    if ts == [] then None
    else if ts[0].id == id then Some(0)
    else
      var r := TicketIndex(ts[1..], id);
      if r.Some? then Some(r.value + 1) else None
  }

  /** The ticket after `updateTicketStatus`: the resolved/closed stamps are overwritten each time. */
  function WithStatus(t: ClientTicket, newStatus: string, now: int): (u: ClientTicket)
    ensures u.status == newStatus && u.updatedAt == now
    ensures u.resolvedAt == (if newStatus == "resolved" then Some(now) else t.resolvedAt)
    ensures u.closedAt == (if newStatus == "closed" then Some(now) else t.closedAt)
    ensures u.(status := t.status, updatedAt := t.updatedAt, resolvedAt := t.resolvedAt, closedAt := t.closedAt) == t
  {
    var u := t.(status := newStatus, updatedAt := now);
    if newStatus == "resolved" then u.(resolvedAt := Some(now))
    else if newStatus == "closed" then u.(closedAt := Some(now))
    else u
  }

  class TicketBoard {
    var tickets: seq<ClientTicket>

    constructor(tickets: seq<ClientTicket>)
      ensures this.tickets == tickets
    {
      this.tickets := tickets;
    }

    /** `handleAddTicket` (script.js:4236-4262): a new open ticket numbered after the list length. */
    method AddTicket(id: int, title: string, now: int)
      modifies this
      ensures tickets == old(tickets) + [ClientTicket(id, TicketNumber(|old(tickets)|), title, "open",
                                                       now, now, None, None, [])]
    {
      var ticket := ClientTicket(id, TicketNumber(|tickets|), title, "open", now, now, None, None, []);
      tickets := tickets + [ticket];
    }

    /** `updateTicketStatus` (script.js:4423-4444): an unknown id changes nothing. */
    method UpdateTicketStatus(id: int, newStatus: string, now: int)
      modifies this
      ensures TicketIndex(old(tickets), id).None? ==> tickets == old(tickets)
      ensures TicketIndex(old(tickets), id).Some? ==>
                var k := TicketIndex(old(tickets), id).value;
                tickets == old(tickets)[k := WithStatus(old(tickets)[k], newStatus, now)]
    {
      var k := TicketIndex(tickets, id);
      if k.None? {
        return;
      }
      tickets := tickets[k.value := WithStatus(tickets[k.value], newStatus, now)];
    }
  }

  /**
   * Numbering follows the list length, so once a ticket has been removed the
   * next one repeats the number of the last ticket in the list.
   */
  lemma NumberRepeatsAfterRemoval(ts: seq<ClientTicket>, i: nat)
    requires i < |ts|
    requires forall j :: 0 <= j < |ts| ==> ts[j].ticketNumber == TicketNumber(j)
    ensures TicketNumber(|ts[..i] + ts[i + 1..]|) == ts[|ts| - 1].ticketNumber
    ensures i < |ts| - 1 ==> ts[|ts| - 1] in ts[..i] + ts[i + 1..]
  {
    var rest := ts[..i] + ts[i + 1..];
    assert |rest| == |ts| - 1;
    if i < |ts| - 1 {
      assert rest[|rest| - 1] == ts[|ts| - 1];
    }
  }

  // ---------------------------------------------------------------------------
  // Repairs: start, complete, cancel (script.js:2905-2953, 3005-3018)
  // ---------------------------------------------------------------------------

  /**
   * A repair of the repairs page. The cost and duration typed into the prompts
   * are kept as entered; `parseFloat` of them is not part of this model.
   */
  datatype RepairRec = RepairRec(
    id: JsId, machineId: JsId, title: string, technician: string, status: string,
    startedAt: Option<int>, completedAt: Option<int>,
    actualCost: Option<string>, actualDuration: Option<string>, notes: Option<string>)

  datatype RepairHistoryEntry = RepairHistoryEntry(
    id: int, repairId: JsId, machineId: JsId, title: string, technician: string,
    completedAt: int, actualCost: string, actualDuration: string, notes: Option<string>)

  /** `repairs.findIndex(r => r.id === id)`. */
  function RepairIndex(rs: seq<RepairRec>, id: JsId): (r: Option<nat>)
    ensures r.Some? ==> r.value < |rs| && rs[r.value].id == id
    ensures r.Some? ==> forall j :: 0 <= j < r.value ==> rs[j].id != id
    ensures r.None? ==> forall j :: 0 <= j < |rs| ==> rs[j].id != id
    decreases |rs|
  {
    if rs == [] then None
    else if rs[0].id == id then Some(0)
    else
      var r := RepairIndex(rs[1..], id);
      if r.Some? then Some(r.value + 1) else None
  }

  /** The list after `startRepair`: whatever its status, the repair is put in progress. */
  function Started(rs: seq<RepairRec>, id: JsId, now: int): (r: seq<RepairRec>)
    ensures |r| == |rs|
    ensures RepairIndex(rs, id).None? ==> r == rs
    ensures RepairIndex(rs, id).Some? ==>
              var k := RepairIndex(rs, id).value;
              r[k].status == "in_progress" && r[k].startedAt == Some(now)
              && r[k].(status := rs[k].status, startedAt := rs[k].startedAt) == rs[k]
              && forall j :: 0 <= j < |rs| && j != k ==> r[j] == rs[j]
  {
    match RepairIndex(rs, id)
    case None => rs
    case Some(k) => rs[k := rs[k].(status := "in_progress", startedAt := Some(now))]
  }

  /** The list after `cancelRepair` is confirmed. */
  function Cancelled(rs: seq<RepairRec>, id: JsId, now: int): (r: seq<RepairRec>)
    ensures |r| == |rs|
    ensures RepairIndex(rs, id).None? ==> r == rs
    ensures RepairIndex(rs, id).Some? ==>
              var k := RepairIndex(rs, id).value;
              r[k].status == "cancelled" && r[k].completedAt == Some(now)
              && r[k].(status := rs[k].status, completedAt := rs[k].completedAt) == rs[k]
              && forall j :: 0 <= j < |rs| && j != k ==> r[j] == rs[j]
  {
    match RepairIndex(rs, id)
    case None => rs
    case Some(k) => rs[k := rs[k].(status := "cancelled", completedAt := Some(now))]
  }

  /** The list after `completeRepair` once both the cost and the duration prompts were answered. */
  function Completed(rs: seq<RepairRec>, id: JsId, cost: string, duration: string, notes: Option<string>, now: int)
    : (r: seq<RepairRec>)
    ensures |r| == |rs|
    ensures RepairIndex(rs, id).None? ==> r == rs
    ensures RepairIndex(rs, id).Some? ==>
              var k := RepairIndex(rs, id).value;
              r[k].status == "completed" && r[k].completedAt == Some(now)
              && r[k].actualCost == Some(cost) && r[k].actualDuration == Some(duration) && r[k].notes == notes
              && r[k].(status := rs[k].status, completedAt := rs[k].completedAt, actualCost := rs[k].actualCost,
                       actualDuration := rs[k].actualDuration, notes := rs[k].notes) == rs[k]
              && forall j :: 0 <= j < |rs| && j != k ==> r[j] == rs[j]
  {
    match RepairIndex(rs, id)
    case None => rs
    case Some(k) =>
      rs[k := rs[k].(status := "completed", completedAt := Some(now), actualCost := Some(cost),
                     actualDuration := Some(duration), notes := notes)]
  }

  class RepairBoard {
    var repairs: seq<RepairRec>
    var history: seq<RepairHistoryEntry>

    constructor(repairs: seq<RepairRec>, history: seq<RepairHistoryEntry>)
      ensures this.repairs == repairs && this.history == history
    {
      this.repairs := repairs;
      this.history := history;
    }

    /** `startRepair` (script.js:2905-2916). */
    method StartRepair(id: JsId, now: int)
      modifies this
      ensures repairs == Started(old(repairs), id, now) && history == old(history)
    {
      var k := RepairIndex(repairs, id);
      if k.None? {
        return;
      }
      repairs := repairs[k.value := repairs[k.value].(status := "in_progress", startedAt := Some(now))];
    }

    /**
     * `completeRepair` (script.js:2918-2953): `cost`, `duration` and `notes` are
     * the answers to the three prompts (`None` when the prompt was dismissed).
     * The history gains one entry at its front, stamped `entryId`.
     */
    method CompleteRepair(id: JsId, cost: Option<string>, duration: Option<string>, notes: Option<string>,
                          now: int, entryId: int)
      modifies this
      ensures RepairIndex(old(repairs), id).None? || cost.None? || duration.None? ==>
                repairs == old(repairs) && history == old(history)
      ensures RepairIndex(old(repairs), id).Some? && cost.Some? && duration.Some? ==>
                var r := old(repairs)[RepairIndex(old(repairs), id).value];
                repairs == Completed(old(repairs), id, cost.value, duration.value, notes, now)
                && history == [RepairHistoryEntry(entryId, id, r.machineId, r.title, r.technician, now,
                                                  cost.value, duration.value, notes)] + old(history)
    {
      var k := RepairIndex(repairs, id);
      if k.None? {
        return;
      }
      var repair := repairs[k.value];
      if cost.Some? && duration.Some? {
        repairs := repairs[k.value := repair.(status := "completed", completedAt := Some(now),
                                              actualCost := Some(cost.value),
                                              actualDuration := Some(duration.value), notes := notes)];
        history := [RepairHistoryEntry(entryId, id, repair.machineId, repair.title, repair.technician, now,
                                       cost.value, duration.value, notes)] + history;
      }
    }

    /** `cancelRepair` (script.js:3005-3018): nothing happens unless confirmed. */
    method CancelRepair(id: JsId, confirmed: bool, now: int)
      modifies this
      ensures repairs == (if confirmed then Cancelled(old(repairs), id, now) else old(repairs))
      ensures history == old(history)
    {
      if !confirmed {
        return;
      }
      var k := RepairIndex(repairs, id);
      if k.None? {
        return;
      }
      repairs := repairs[k.value := repairs[k.value].(status := "cancelled", completedAt := Some(now))];
    }
  }

  /**
   * No transition is refused: a completed or cancelled repair can be started
   * again, and a repair never started can be completed.
   */
  lemma LifecycleNotEnforced(r: RepairRec, now: int, cost: string, duration: string)
    requires r.status == "completed" || r.status == "cancelled"
    ensures Started([r], r.id, now)[0].status == "in_progress"
    ensures Completed([r.(status := "pending")], r.id, cost, duration, None, now)[0].status == "completed"
  {
    assert RepairIndex([r], r.id) == Some(0);
    assert RepairIndex([r.(status := "pending")], r.id) == Some(0);
  }
}
