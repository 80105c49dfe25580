/**
 * Stock per category: the `StockParCategorie` counters, which `addMachine`
 * updates one machine at a time, and the stock service that groups an
 * enterprise's machines by category, keeps the non-empty categories and
 * sorts them by name.
 */
module StockPerCategory {
  import opened Base
  import opened JavaStrings
  import opened Machines
  import opened Ordering

  /** The seven counters of a category. */
  datatype Tally = Total | Operational | Available | NonOperational | InRepair | Backup | New

  /** Available: operational and not in repair. */
  predicate Disponible(m: Machine)
  {
    !m.EnReparation() && m.Operationnel()
  }

  /** Whether `addMachine` raises counter `t` for machine `m`. */
  predicate Counts(t: Tally, m: Machine)
  {
    match t
    case Total => m.EstEntrepot() || Disponible(m)
    case Operational => Disponible(m)
    case Available => Disponible(m)
    case NonOperational => !Disponible(m) && !m.EstEntrepot()
    case InRepair => m.EnReparation()
    case Backup => m.EstSecours()
    case New => m.EstEntrepot()
  }

  /** How many machines of `ms` counter `t` counts. */
  function Count(ms: seq<Machine>, t: Tally): nat
    decreases |ms|
  {
    if ms == [] then 0 else Count(ms[..|ms| - 1], t) + (if Counts(t, ms[|ms| - 1]) then 1 else 0)
  }

  /**
   * Every machine lands in exactly one of the total and the non-operational
   * counter, the operational and available counters agree, and new machines
   * are all in the total.
   */
  lemma {:induction false} CountersBalance(ms: seq<Machine>)
    ensures Count(ms, Total) + Count(ms, NonOperational) == |ms|
    ensures Count(ms, Operational) == Count(ms, Available)
    ensures Count(ms, New) <= Count(ms, Total)
    decreases |ms|
  {
    if ms != [] {
      CountersBalance(ms[..|ms| - 1]);
    }
  }

  /** A counter is zero exactly when it counts none of the machines. */
  lemma {:induction false} CountZeroIff(ms: seq<Machine>, t: Tally)
    ensures Count(ms, t) == 0 <==> forall m :: m in ms ==> !Counts(t, m)
    decreases |ms|
  {
    if ms != [] {
      var n := |ms| - 1;
      CountZeroIff(ms[..n], t);
      assert ms == ms[..n] + [ms[n]];
    }
  }

  /** The counters over a list grow by the counts of what is appended. */
  lemma {:induction false} CountAppend(xs: seq<Machine>, ys: seq<Machine>, t: Tally)
    ensures Count(xs + ys, t) == Count(xs, t) + Count(ys, t)
    decreases |ys|
  {
    if ys == [] {
      assert xs + ys == xs;
    } else {
      assert (xs + ys)[..|xs + ys| - 1] == xs + ys[..|ys| - 1];
      CountAppend(xs, ys[..|ys| - 1], t);
    }
  }

  /** Appending one machine adds one to the counters that count it. */
  lemma CountSnoc(ms: seq<Machine>, m: Machine, t: Tally)
    ensures Count(ms + [m], t) == Count(ms, t) + (if Counts(t, m) then 1 else 0)
  {
    assert (ms + [m])[..|ms|] == ms;
  }

  /** `CountSnoc` for the seven counters at once. */
  lemma CountsSnoc(ms: seq<Machine>, m: Machine)
    ensures Count(ms + [m], Total) == Count(ms, Total) + (if m.EstEntrepot() || Disponible(m) then 1 else 0)
    ensures Count(ms + [m], Operational) == Count(ms, Operational) + (if Disponible(m) then 1 else 0)
    ensures Count(ms + [m], Available) == Count(ms, Available) + (if Disponible(m) then 1 else 0)
    ensures Count(ms + [m], NonOperational)
            == Count(ms, NonOperational) + (if !Disponible(m) && !m.EstEntrepot() then 1 else 0)
    ensures Count(ms + [m], InRepair) == Count(ms, InRepair) + (if m.EnReparation() then 1 else 0)
    ensures Count(ms + [m], Backup) == Count(ms, Backup) + (if m.EstSecours() then 1 else 0)
    ensures Count(ms + [m], New) == Count(ms, New) + (if m.EstEntrepot() then 1 else 0)
  {
    assert (ms + [m])[..|ms|] == ms;
  }

  /** `StockParCategorie.java`: a category, its machines and their counters. */
  class StockParCategorie {
    var categoryId: Option<int>
    var categoryName: Option<string>
    var categoryDescription: Option<string>
    var nombreMachinesOperationnelles: nat
    var nombreMachinesTotal: nat
    var nombreMachinesSecours: nat
    var nombreMachinesNeuves: nat
    var nombreMachinesDisponibles: nat
    var nombreMachinesNonOperationnelles: nat
    var nombreMachinesEnReparation: nat
    var machines: seq<Machine>

    /** Each counter counts its machines of the list. */
    ghost predicate Valid()
      reads this
    {
      nombreMachinesTotal == Count(machines, Total)
      && nombreMachinesOperationnelles == Count(machines, Operational)
      && nombreMachinesDisponibles == Count(machines, Available)
      && nombreMachinesNonOperationnelles == Count(machines, NonOperational)
      && nombreMachinesEnReparation == Count(machines, InRepair)
      && nombreMachinesSecours == Count(machines, Backup)
      && nombreMachinesNeuves == Count(machines, New)
    }

    /** The reading of counter `t`. */
    function Counter(t: Tally): nat
      reads this
    {
      match t
      case Total => nombreMachinesTotal
      case Operational => nombreMachinesOperationnelles
      case Available => nombreMachinesDisponibles
      case NonOperational => nombreMachinesNonOperationnelles
      case InRepair => nombreMachinesEnReparation
      case Backup => nombreMachinesSecours
      case New => nombreMachinesNeuves
    }

    /** The no-argument constructor: no category, every counter at zero. */
    constructor Empty()
      ensures categoryId.None? && categoryName.None? && categoryDescription.None?
      ensures machines == [] && forall t :: Counter(t) == 0
      ensures Valid()
    {
      categoryId, categoryName, categoryDescription := None, None, None;
      nombreMachinesOperationnelles, nombreMachinesTotal, nombreMachinesSecours := 0, 0, 0;
      nombreMachinesNeuves, nombreMachinesDisponibles, nombreMachinesNonOperationnelles := 0, 0, 0;
      nombreMachinesEnReparation := 0;
      machines := [];
    }

    /** The category constructor: the given category, every counter at zero. */
    constructor (id: Option<int>, name: Option<string>, description: Option<string>)
      ensures categoryId == id && categoryName == name && categoryDescription == description
      ensures machines == [] && forall t :: Counter(t) == 0
      ensures Valid()
    {
      categoryId, categoryName, categoryDescription := id, name, description;
      nombreMachinesOperationnelles, nombreMachinesTotal, nombreMachinesSecours := 0, 0, 0;
      nombreMachinesNeuves, nombreMachinesDisponibles, nombreMachinesNonOperationnelles := 0, 0, 0;
      nombreMachinesEnReparation := 0;
      machines := [];
    }

    /**
     * `addMachine`: the machine is appended once and every counter that
     * counts it goes up by one; the counters keep counting the list.
     */
    method AddMachine(m: Machine)
      requires Valid()
      modifies this
      ensures machines == old(machines) + [m]
      ensures categoryId == old(categoryId) && categoryName == old(categoryName)
      ensures categoryDescription == old(categoryDescription)
      ensures Valid()
    {
      CountsSnoc(machines, m);
      machines := machines + [m];
      var enReparation := m.EnReparation();
      var operationnel := m.Operationnel();
      var estNeuve := m.EstEntrepot();
      var disponible := !enReparation && operationnel;
      var compterDansTotal := estNeuve || disponible;
      if compterDansTotal {
        nombreMachinesTotal := nombreMachinesTotal + 1;
      }
      assert nombreMachinesTotal == Count(machines, Total);
      if disponible {
        nombreMachinesOperationnelles := nombreMachinesOperationnelles + 1;
        nombreMachinesDisponibles := nombreMachinesDisponibles + 1;
      } else if !estNeuve {
        nombreMachinesNonOperationnelles := nombreMachinesNonOperationnelles + 1;
      }
      assert nombreMachinesOperationnelles == Count(machines, Operational);
      assert nombreMachinesDisponibles == Count(machines, Available);
      assert nombreMachinesNonOperationnelles == Count(machines, NonOperational);
      if enReparation {
        nombreMachinesEnReparation := nombreMachinesEnReparation + 1;
      }
      assert nombreMachinesEnReparation == Count(machines, InRepair);
      if m.EstSecours() {
        nombreMachinesSecours := nombreMachinesSecours + 1;
      }
      assert nombreMachinesSecours == Count(machines, Backup);
      if estNeuve {
        nombreMachinesNeuves := nombreMachinesNeuves + 1;
      }
    }
  }

  /** A counters object filled machine by machine keeps the balance of `CountersBalance`. */
  method FillCounters(id: Option<int>, ms: seq<Machine>) returns (s: StockParCategorie)
    ensures fresh(s) && s.Valid() && s.machines == ms && s.categoryId == id
    ensures s.nombreMachinesTotal + s.nombreMachinesNonOperationnelles == |ms|
    ensures s.nombreMachinesOperationnelles == s.nombreMachinesDisponibles
    ensures s.nombreMachinesNeuves <= s.nombreMachinesTotal
  {
    s := new StockParCategorie(id, None, None);
    var i := 0;
    while i < |ms|
      invariant 0 <= i <= |ms|
      invariant s.Valid() && s.machines == ms[..i] && s.categoryId == id
      modifies s
    {
      s.AddMachine(ms[i]);
      assert ms[..i + 1] == ms[..i] + [ms[i]];
      i := i + 1;
    }
    assert ms[..i] == ms;
    CountersBalance(ms);
  }

  // ---------------------------------------------------------------------------
  // StockService
  // ---------------------------------------------------------------------------

  /**
   * One entry of the service's map: the category and the machines added to
   * it. Its counters are `Count(machines, t)`, which is what the
   * `StockParCategorie` object of the entry holds (its `Valid`).
   */
  datatype Stock = Stock(categoryId: int, categoryName: Option<string>, categoryDescription: Option<string>,
                         machines: seq<Machine>)

  function EmptyStock(c: Category): Stock
    requires c.id.Some?
  {
    Stock(c.id.value, c.name, c.description, [])
  }

  /** The name of an entry created for a category the list does not know. */
  function FallbackName(m: Machine): Option<string>
    requires m.categoryId.Some?
  {
    if m.categoryName.Some? then m.categoryName else Some("Catégorie " + IntToString(m.categoryId.value))
  }

  /** The map after the category loop: one empty entry per category id, a later category replacing an earlier one. */
  function InitialStocks(cats: seq<Category>): map<int, Stock>
    decreases |cats|
  {
    if cats == [] then map[]
    else
      var c := cats[|cats| - 1];
      var prev := InitialStocks(cats[..|cats| - 1]);
      if c.id.Some? then prev[c.id.value := EmptyStock(c)] else prev
  }

  /** One step of the machine loop. */
  function AddToStocks(stocks: map<int, Stock>, m: Machine): map<int, Stock>
  {
    if m.categoryId.None? then stocks
    else
      var id := m.categoryId.value;
      if id in stocks then stocks[id := stocks[id].(machines := stocks[id].machines + [m])]
      else stocks[id := Stock(id, FallbackName(m), m.categoryDescription, [m])]
  }

  /** The map after both loops. */
  function StocksFor(stocks: map<int, Stock>, ms: seq<Machine>): map<int, Stock>
    decreases |ms|
  {
    if ms == [] then stocks else AddToStocks(StocksFor(stocks, ms[..|ms| - 1]), ms[|ms| - 1])
  }

  /** `getMachinesParCategorie` as a specification: the machines of that category, in list order. */
  function MachinesOf(ms: seq<Machine>, categoryId: Option<int>): seq<Machine>
    decreases |ms|
  {
    if ms == [] then []
    else
      var m := ms[|ms| - 1];
      MachinesOf(ms[..|ms| - 1], categoryId) + if m.categoryId.Some? && m.categoryId == categoryId then [m] else []
  }

  /** The list holds exactly the machines of the category; a null category id selects nothing. */
  lemma {:induction false} MachinesOfMembers(ms: seq<Machine>, categoryId: Option<int>)
    ensures forall m :: m in MachinesOf(ms, categoryId) <==> m in ms && m.categoryId.Some? && m.categoryId == categoryId
    ensures categoryId.None? ==> MachinesOf(ms, categoryId) == []
    decreases |ms|
  {
    if ms != [] {
      MachinesOfMembers(ms[..|ms| - 1], categoryId);
      assert ms == ms[..|ms| - 1] + [ms[|ms| - 1]];
    }
  }

  /** Every entry is filed under its own category id. */
  predicate KeyedById(stocks: map<int, Stock>)
  {
    forall id :: id in stocks ==> stocks[id].categoryId == id
  }

  /** Entries that start empty and file under their own id. */
  lemma {:induction false} InitialStocksShape(cats: seq<Category>)
    ensures KeyedById(InitialStocks(cats))
    ensures forall id :: id in InitialStocks(cats) ==> InitialStocks(cats)[id].machines == []
    ensures forall id :: id in InitialStocks(cats) <==> exists c :: c in cats && c.id == Some(id)
    decreases |cats|
  {
    if cats != [] {
      var n := |cats| - 1;
      InitialStocksShape(cats[..n]);
      assert cats == cats[..n] + [cats[n]];
    }
  }

  /**
   * After the machine loop, the entry of a category holds its starting
   * machines followed by exactly the machines of that category, in list
   * order; a category appears when it was there or a machine names it.
   */
  lemma {:induction false} StocksForMachines(stocks: map<int, Stock>, ms: seq<Machine>, id: int)
    requires KeyedById(stocks)
    ensures KeyedById(StocksFor(stocks, ms))
    ensures id in StocksFor(stocks, ms) <==> id in stocks || MachinesOf(ms, Some(id)) != []
    ensures id in StocksFor(stocks, ms) ==>
              StocksFor(stocks, ms)[id].machines
              == (if id in stocks then stocks[id].machines else []) + MachinesOf(ms, Some(id))
    decreases |ms|
  {
    if ms != [] {
      var n := |ms| - 1;
      StocksForMachines(stocks, ms[..n], id);
      var m := ms[n];
      var prev := StocksFor(stocks, ms[..n]);
      if m.categoryId == Some(id) {
        assert MachinesOf(ms, Some(id)) == MachinesOf(ms[..n], Some(id)) + [m];
      } else {
        assert MachinesOf(ms, Some(id)) == MachinesOf(ms[..n], Some(id));
      }
      StocksForKeyed(stocks, ms);
    }
  }

  /** Every step of the machine loop files entries under their own id. */
  lemma {:induction false} StocksForKeyed(stocks: map<int, Stock>, ms: seq<Machine>)
    requires KeyedById(stocks)
    ensures KeyedById(StocksFor(stocks, ms))
    decreases |ms|
  {
    if ms != [] {
      StocksForKeyed(stocks, ms[..|ms| - 1]);
    }
  }

  /**
   * The entry of every category the service reports holds exactly that
   * category's machines: the stock page and the category page agree.
   */
  lemma StockMatchesCategoryPage(cats: seq<Category>, ms: seq<Machine>, id: int)
    requires id in StocksFor(InitialStocks(cats), ms)
    ensures StocksFor(InitialStocks(cats), ms)[id].machines == MachinesOf(ms, Some(id))
    ensures StocksFor(InitialStocks(cats), ms)[id].categoryId == id
  {
    InitialStocksShape(cats);
    StocksForMachines(InitialStocks(cats), ms, id);
  }

  /** Whether the result keeps an entry: at least one machine in its total. */
  predicate Shown(s: Stock)
  {
    Count(s.machines, Total) > 0
  }

  /**
   * A category whose machines are all out of order (not available and not
   * new) is left out of the stock list, even though it has machines.
   */
  lemma BrokenCategoryHidden(cats: seq<Category>, ms: seq<Machine>, id: int)
    requires id in StocksFor(InitialStocks(cats), ms)
    requires forall m :: m in ms && m.categoryId == Some(id) ==> !Disponible(m) && !m.EstEntrepot()
    ensures !Shown(StocksFor(InitialStocks(cats), ms)[id])
  {
    StockMatchesCategoryPage(cats, ms, id);
    MachinesOfMembers(ms, Some(id));
    CountZeroIff(MachinesOf(ms, Some(id)), Total);
  }

  /** A machine whose category is not in the list opens an entry named after it, or "Catégorie <id>". */
  lemma UnknownCategoryNamed(stocks: map<int, Stock>, m: Machine)
    requires m.categoryId.Some? && m.categoryId.value !in stocks
    ensures var e := AddToStocks(stocks, m)[m.categoryId.value];
            e.machines == [m] && e.categoryDescription == m.categoryDescription
            && e.categoryName == (if m.categoryName.Some? then m.categoryName
                                  else Some("Catégorie " + IntToString(m.categoryId.value)))
  {
  }

  function StockName(s: Stock): Option<string>
  {
    s.categoryName
  }

  /** Sorted by category name ignoring case, entries without a name last. */
  predicate SortedByName(xs: seq<Stock>)
  {
    SortedBy(xs, StockName)
  }

  /**
   * `calculerStockParCategorie`: the category loop, the machine loop, the
   * filter on the total and the sort. The result lists, sorted by name,
   * exactly the shown entries of the map, each once.
   */
  method CalculerStockParCategorie(cats: seq<Category>, ms: seq<Machine>) returns (result: seq<Stock>)
    ensures SortedByName(result)
    ensures forall s :: s in result <==> exists id :: id in StocksFor(InitialStocks(cats), ms)
                                                  && StocksFor(InitialStocks(cats), ms)[id] == s && Shown(s)
    ensures forall i, j :: 0 <= i < j < |result| ==> result[i].categoryId != result[j].categoryId
  {
    var stockMap: map<int, Stock> := map[];
    var i := 0;
    while i < |cats|
      invariant 0 <= i <= |cats|
      invariant stockMap == InitialStocks(cats[..i])
    {
      var c := cats[i];
      if c.id.Some? {
        stockMap := stockMap[c.id.value := EmptyStock(c)];
      }
      assert cats[..i + 1][..i] == cats[..i];
      i := i + 1;
    }
    assert cats[..i] == cats;
    var j := 0;
    while j < |ms|
      invariant 0 <= j <= |ms|
      invariant stockMap == StocksFor(InitialStocks(cats), ms[..j])
    {
      stockMap := AddToStocks(stockMap, ms[j]);
      assert ms[..j + 1][..j] == ms[..j];
      j := j + 1;
    }
    assert ms[..j] == ms;
    InitialStocksShape(cats);
    KeyedAfterMachines(InitialStocks(cats), ms);
    var kept := KeepShown(stockMap);
    result := SortBy(kept, StockName);
    forall s | s in result
      ensures exists id :: id in stockMap && stockMap[id] == s && Shown(s)
    {
      assert s in multiset(kept);
      assert s in kept;
    }
    forall s | exists id :: id in stockMap && stockMap[id] == s && Shown(s)
      ensures s in result
    {
      assert s in multiset(result);
    }
    forall a, b | 0 <= a < b < |result|
      ensures result[a].categoryId != result[b].categoryId
    {
      DistinctIdsAfterSort(kept, result, a, b);
    }
  }

  lemma KeyedAfterMachines(stocks: map<int, Stock>, ms: seq<Machine>)
    requires KeyedById(stocks)
    ensures KeyedById(StocksFor(stocks, ms))
  {
    if ms == [] {
    } else {
      StocksForMachines(stocks, ms, 0);
    }
  }

  predicate DistinctIds(xs: seq<Stock>)
  {
    forall i, j :: 0 <= i < j < |xs| ==> xs[i].categoryId != xs[j].categoryId
  }

  /** The filter loop over the map's entries, in whatever order the map yields them. */
  method KeepShown(stocks: map<int, Stock>) returns (kept: seq<Stock>)
    requires KeyedById(stocks)
    ensures forall s :: s in kept <==> exists id :: id in stocks && stocks[id] == s && Shown(s)
    ensures DistinctIds(kept)
  {
    kept := [];
    var todo := stocks.Keys;
    while todo != {}
      invariant todo <= stocks.Keys
      invariant forall s :: s in kept <==> exists id :: id in stocks && id !in todo && stocks[id] == s && Shown(s)
      invariant forall s :: s in kept ==> s.categoryId !in todo
      invariant DistinctIds(kept)
      decreases |todo|
    {
      var id := PickKey(todo);
      if Shown(stocks[id]) {
        kept := kept + [stocks[id]];
      }
      todo := todo - {id};
    }
  }

  /** Some key of a non-empty set. */
  method PickKey(keys: set<int>) returns (k: int)
    requires keys != {}
    ensures k in keys
  {
    SomeKey(keys);
    k :| k in keys;
  }

  /** A non-empty set of keys has a member. */
  lemma SomeKey(keys: set<int>)
    requires keys != {}
    ensures exists k :: k in keys
  {
    if forall k :: k !in keys {
      assert false;
    }
  }

  /** Sorting a list with distinct category ids keeps them distinct. */
  lemma DistinctIdsAfterSort(xs: seq<Stock>, ys: seq<Stock>, a: int, b: int)
    requires DistinctIds(xs) && multiset(ys) == multiset(xs) && 0 <= a < b < |ys|
    ensures ys[a].categoryId != ys[b].categoryId
  {
    if ys[a].categoryId == ys[b].categoryId {
      assert ys[a] in multiset(xs) && ys[b] in multiset(xs);
      var i :| 0 <= i < |xs| && xs[i] == ys[a];
      var j :| 0 <= j < |xs| && xs[j] == ys[b];
      assert i == j;
      assert ys[a] == ys[b];
      assert multiset(ys)[ys[a]] >= 2 by {
        var rest := ys[..a] + ys[a + 1..];
        assert ys == ys[..a] + [ys[a]] + ys[a + 1..];
        assert ys[b] in rest by { assert rest[b - 1] == ys[b]; }
      }
      MultiplicityOne(xs, xs[i]);
    }
  }

  /** In a list with distinct ids, each entry occurs once. */
  lemma {:induction false} MultiplicityOne(xs: seq<Stock>, x: Stock)
    requires DistinctIds(xs)
    ensures multiset(xs)[x] <= 1
    decreases |xs|
  {
    if xs != [] {
      var n := |xs| - 1;
      assert xs == xs[..n] + [xs[n]];
      MultiplicityOne(xs[..n], x);
      if xs[n] == x {
        assert x !in xs[..n];
      }
    }
  }

  /** `getMachinesParCategorie`: the loop that collects one category's machines. */
  method GetMachinesParCategorie(ms: seq<Machine>, categoryId: Option<int>) returns (r: seq<Machine>)
    ensures r == MachinesOf(ms, categoryId)
  {
    r := [];
    var i := 0;
    while i < |ms|
      invariant 0 <= i <= |ms|
      invariant r == MachinesOf(ms[..i], categoryId)
    {
      var m := ms[i];
      if m.categoryId.Some? && m.categoryId == categoryId {
        r := r + [m];
      }
      assert ms[..i + 1][..i] == ms[..i];
      i := i + 1;
    }
    assert ms[..i] == ms;
  }
}
